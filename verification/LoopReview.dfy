/**
 The task-block printer and parser of loop review (`crates/orrch-core/src/loop_review.rs`), and the ranking between them.
 Numbers are reals; how they are printed, and how the values of `Risk:` and `EditFactor:` lines are parsed, is left open.
 */
module LoopReview {
  import opened Options
  import opened Text

  datatype CandidateStep = CandidateStep(
    id: string, description: string, agent: string, files: seq<string>, work: string, acceptance: string,
    depends: seq<string>, editFactor: real, architecturalRisk: Option<real>)

  type NumberParser = string -> Option<real>

  // ---- Parsing ------------------------------------------------------------------------------

  datatype Field = AgentField | FilesField | WorkField | AcceptanceField | DependsField | RiskField | FactorField | NoField

  /** The field a line sets, and the text after its label. */
  function FieldOf(line: string): (Field, string) {
    if "Agent:" <= line then (AgentField, line[6..])
    else if "Files:" <= line then (FilesField, line[6..])
    else if "Work:" <= line then (WorkField, line[5..])
    else if "Acceptance:" <= line then (AcceptanceField, line[11..])
    else if "Depends:" <= line then (DependsField, line[8..])
    else if "Risk:" <= line then (RiskField, line[5..])
    else if "EditFactor:" <= line then (FactorField, line[11..])
    else (NoField, [])
  }

  /** The trimmed pieces between commas that are neither empty nor `none`. */
  function Items(pieces: seq<string>): seq<string> {
    if pieces == [] then []
    else
      var item := Trim(pieces[0]);
      (if item == [] || item == "none" then [] else [item]) + Items(pieces[1..])
  }

  function InferEditFactor(work: string): real {
    var w := ToLower(work);
    if Contains(w, "rewrite") || Contains(w, "redesign") then 1.0
    else if Contains(w, "refactor") || Contains(w, "split") || Contains(w, "extract") then 0.6
    else if Contains(w, "tweak") || Contains(w, "comment") || Contains(w, "typo") || Contains(w, "fix line")
      || Contains(w, "rename") || Contains(w, "trivial") then 0.05
    else 0.25
  }

  function SetField(step: CandidateStep, field: Field, v: string, number: NumberParser): CandidateStep {
    match field
    case AgentField => step.(agent := Trim(v))
    case FilesField => step.(files := Items(Split(v, ',')))
    case WorkField => step.(work := Trim(v), editFactor := InferEditFactor(v))
    case AcceptanceField => step.(acceptance := Trim(v))
    case DependsField => step.(depends := Items(Split(v, ',')))
    case RiskField => if number(Trim(v)).Some? then step.(architecturalRisk := number(Trim(v))) else step
    case FactorField => if number(Trim(v)).Some? then step.(editFactor := number(Trim(v)).value) else step
    case NoField => step
  }

  predicate IsHeader(line: string) {
    "TASK " <= TrimStart(line)
  }

  function NewStep(id: string, description: string): CandidateStep {
    CandidateStep(id, description, [], [], [], [], [], 0.25, None)
  }

  /** The step a header line starts. */
  function StepOfHeader(line: string): CandidateStep
    requires IsHeader(line)
  {
    var rest := TrimStart(line)[5..];
    var colon := Find(rest, ":");
    if colon.Some? then NewStep(Trim(rest[..colon.value]), Trim(rest[colon.value + 1..])) else NewStep(Trim(rest), [])
  }

  function ReadField(step: CandidateStep, line: string, number: NumberParser): CandidateStep {
    var (field, v) := FieldOf(TrimStart(line));
    SetField(step, field, v, number)
  }

  /** `step` after the field lines up to the next header. */
  function ReadFields(step: CandidateStep, lines: seq<string>, number: NumberParser): CandidateStep
    decreases |lines|
  {
    if lines == [] || IsHeader(lines[0]) then step
    else ReadFields(ReadField(step, lines[0], number), lines[1..], number)
  }

  /** One step per header line, each with the fields up to the next header. */
  function ParseBlocks(lines: seq<string>, number: NumberParser): seq<CandidateStep>
    decreases |lines|
  {
    if lines == [] then []
    else if IsHeader(lines[0]) then
      [ReadFields(StepOfHeader(lines[0]), lines[1..], number)] + ParseBlocks(lines[1..], number)
    else ParseBlocks(lines[1..], number)
  }

  // ---- What a block's lines say -------------------------------------------------------------

  /** Whatever its indent, a line sets the one field it names; `Work:` also guesses how large the edit is. */
  lemma FieldLineSets(step: CandidateStep, indent: string, v: string, number: NumberParser)
    requires TrimStart(indent) == []
    ensures ReadField(step, indent + "Agent:" + v, number) == step.(agent := Trim(v))
    ensures ReadField(step, indent + "Files:" + v, number) == step.(files := Items(Split(v, ',')))
    ensures ReadField(step, indent + "Work:" + v, number) == step.(work := Trim(v), editFactor := InferEditFactor(v))
    ensures ReadField(step, indent + "Acceptance:" + v, number) == step.(acceptance := Trim(v))
    ensures ReadField(step, indent + "Depends:" + v, number) == step.(depends := Items(Split(v, ',')))
    ensures ReadField(step, indent + "Risk:" + v, number)
         == if number(Trim(v)).Some? then step.(architecturalRisk := number(Trim(v))) else step
    ensures ReadField(step, indent + "EditFactor:" + v, number)
         == if number(Trim(v)).Some? then step.(editFactor := number(Trim(v)).value) else step
  {
    IndentedField(step, indent, "Agent:", AgentField, v, number);
    IndentedField(step, indent, "Files:", FilesField, v, number);
    IndentedField(step, indent, "Work:", WorkField, v, number);
    IndentedField(step, indent, "Acceptance:", AcceptanceField, v, number);
    IndentedField(step, indent, "Depends:", DependsField, v, number);
    IndentedField(step, indent, "Risk:", RiskField, v, number);
    IndentedField(step, indent, "EditFactor:", FactorField, v, number);
  }

  predicate Labels(tag: string, field: Field) {
    match field
    case AgentField => tag == "Agent:"
    case FilesField => tag == "Files:"
    case WorkField => tag == "Work:"
    case AcceptanceField => tag == "Acceptance:"
    case DependsField => tag == "Depends:"
    case RiskField => tag == "Risk:"
    case FactorField => tag == "EditFactor:"
    case NoField => false
  }

  lemma IndentedField(
    step: CandidateStep, indent: string, tag: string, field: Field, v: string, number: NumberParser)
    requires TrimStart(indent) == "" && Labels(tag, field)
    ensures ReadField(step, indent + tag + v, number) == SetField(step, field, v, number)
  {
    LabelIsRead(indent, tag, field, v);
    FieldIsSet(step, indent + tag + v, field, v, number);
  }

  lemma LabelIsRead(indent: string, tag: string, field: Field, v: string)
    requires TrimStart(indent) == [] && Labels(tag, field)
    ensures FieldOf(TrimStart(indent + tag + v)) == (field, v)
  {
    assert indent + tag + v == indent + (tag + v);
    LabelledLine(tag, field, v);
    IndentGoes(indent, tag + v);
  }

  lemma FieldIsSet(step: CandidateStep, line: string, field: Field, v: string, number: NumberParser)
    requires FieldOf(TrimStart(line)) == (field, v)
    ensures ReadField(step, line, number) == SetField(step, field, v, number)
  {
  }

  lemma {:induction false} IndentGoes(indent: string, s: string)
    requires TrimStart(indent) == "" && s != "" && !IsWhitespace(s[0])
    ensures TrimStart(indent + s) == s
  {
    if indent == [] {
      assert indent + s == s;
    } else {
      assert (indent + s)[1..] == indent[1..] + s;
      IndentGoes(indent[1..], s);
    }
  }

  /** A line that names no field changes nothing. */
  lemma OtherLinesAreSkipped(step: CandidateStep, line: string, number: NumberParser)
    requires forall tag :: tag in FIELD_TAGS ==> !(tag <= TrimStart(line))
    ensures ReadField(step, line, number) == step
  {
    var tags := FIELD_TAGS;
    assert tags[0] in tags && tags[1] in tags && tags[2] in tags && tags[3] in tags && tags[4] in tags;
    assert tags[5] in tags && tags[6] in tags;
  }

  const FIELD_TAGS: seq<string> := ["Agent:", "Files:", "Work:", "Acceptance:", "Depends:", "Risk:", "EditFactor:"]

  /** The fields of a block are read line by line, so of two lines for one field the later one counts. */
  lemma {:induction false} FieldsInOrder(step: CandidateStep, lines: seq<string>, line: string, number: NumberParser)
    requires forall i :: 0 <= i < |lines| ==> !IsHeader(lines[i])
    requires !IsHeader(line)
    ensures ReadFields(step, lines + [line], number) == ReadField(ReadFields(step, lines, number), line, number)
    decreases |lines|
  {
    if lines == [] {
      assert lines + [line] == [line] && ReadFields(ReadField(step, line, number), [line][1..], number)
                                         == ReadField(step, line, number);
    } else {
      assert (lines + [line])[1..] == lines[1..] + [line];
      FieldsInOrder(ReadField(step, lines[0], number), lines[1..], line, number);
    }
  }

  /** A header names the task before its first colon and describes it after; every field starts empty, the edit small. */
  lemma HeaderStarts(indent: string, id: string, description: string)
    requires TrimStart(indent) == "" && ':' !in id
    ensures IsHeader(indent + "TASK " + id + ":" + description)
    ensures StepOfHeader(indent + "TASK " + id + ":" + description)
         == CandidateStep(Trim(id), Trim(description), "", [], "", "", [], 0.25, None)
  {
    var rest := id + ":" + description;
    assert indent + "TASK " + id + ":" + description == indent + ("TASK " + rest);
    IndentGoes(indent, "TASK " + rest);
    assert ("TASK " + rest)[5..] == rest;
    ColonAt(id, description);
  }

  /** A header without a colon is all name. */
  lemma HeaderWithoutColon(indent: string, id: string)
    requires TrimStart(indent) == [] && ':' !in id
    ensures IsHeader(indent + "TASK " + id)
    ensures StepOfHeader(indent + "TASK " + id) == CandidateStep(Trim(id), "", "", [], "", "", [], 0.25, None)
  {
    assert indent + "TASK " + id == indent + ("TASK " + id);
    IndentGoes(indent, "TASK " + id);
    assert ("TASK " + id)[5..] == id;
    NoColon(id);
  }

  lemma {:induction false} NoColon(id: string)
    requires ':' !in id
    ensures Find(id, ":") == None
  {
    if id != [] {
      assert id[0] in id;
      NoColon(id[1..]);
    }
  }

  lemma ColonAt(id: string, description: string)
    requires ':' !in id
    ensures
      var rest := id + ":" + description;
      Find(rest, ":") == Some(|id|) && rest[..|id|] == id && rest[|id| + 1..] == description
  {
    var rest := id + ":" + description;
    assert rest[|id|..] == ":" + description;
    forall j | 0 <= j < |id| ensures !(":" <= rest[j..]) {
      assert rest[j..][0] == id[j];
    }
    FindIs(rest, ":", |id|);
  }

  /** The word stands somewhere in the text, in letters of either case. */
  ghost predicate SaysWord(text: string, word: string) {
    exists j :: WordAt(text, word, j)
  }

  predicate WordAt(text: string, word: string, j: int) {
    0 <= j <= |text| - |word| && ToLower(text[j..j + |word|]) == word
  }

  lemma SaysWordIs(text: string, word: string)
    ensures Contains(ToLower(text), word) <==> SaysWord(text, word)
  {
    var lower := ToLower(text);
    ContainsExactlyWhen(lower, word);
    forall j | 0 <= j <= |text| ensures word <= lower[j..] <==> WordAt(text, word, j) {
      if j <= |text| - |word| {
        assert ToLower(text[j..j + |word|]) == lower[j..][..|word|];
      }
    }
  }

  /** How large an edit the words of a `Work:` line make it: the strongest word counts, and no word means a feature. */
  lemma EditFactorMeans(work: string)
    ensures
      var all := SaysWord(work, "rewrite") || SaysWord(work, "redesign");
      var part := SaysWord(work, "refactor") || SaysWord(work, "split") || SaysWord(work, "extract");
      var little := SaysWord(work, "tweak") || SaysWord(work, "comment") || SaysWord(work, "typo")
        || SaysWord(work, "fix line") || SaysWord(work, "rename") || SaysWord(work, "trivial");
      && (InferEditFactor(work) == 1.0 <==> all)
      && (InferEditFactor(work) == 0.6 <==> part && !all)
      && (InferEditFactor(work) == 0.05 <==> little && !part && !all)
      && (InferEditFactor(work) == 0.25 <==> !little && !part && !all)
  {
    SaysWordIs(work, "rewrite");
    SaysWordIs(work, "redesign");
    SaysWordIs(work, "refactor");
    SaysWordIs(work, "split");
    SaysWordIs(work, "extract");
    SaysWordIs(work, "tweak");
    SaysWordIs(work, "comment");
    SaysWordIs(work, "typo");
    SaysWordIs(work, "fix line");
    SaysWordIs(work, "rename");
    SaysWordIs(work, "trivial");
  }

  /** The inner loop of `ParseTaskBlocks`, from line `i` to the next header. */
  method ReadBlock(start: CandidateStep, lines: seq<string>, from: nat, number: NumberParser)
    returns (step: CandidateStep, i: nat)
    requires from <= |lines|
    ensures step == ReadFields(start, lines[from..], number)
    ensures from <= i <= |lines| && ParseBlocks(lines[i..], number) == ParseBlocks(lines[from..], number)
  {
    step, i := start, from;
    while i < |lines| && !IsHeader(lines[i])
      invariant from <= i <= |lines|
      invariant ReadFields(step, lines[i..], number) == ReadFields(start, lines[from..], number)
      invariant ParseBlocks(lines[i..], number) == ParseBlocks(lines[from..], number)
    {
      assert lines[i..][1..] == lines[i + 1..];
      step := ReadField(step, lines[i], number);
      i := i + 1;
    }
  }

  /** The tasks of a whole text. */
  function ParseText(text: string, number: NumberParser): seq<CandidateStep> {
    ParseBlocks(Lines(text), number)
  }

  method ParseTaskBlocks(text: string, number: NumberParser) returns (out: seq<CandidateStep>)
    ensures out == ParseText(text, number)
  {
    var lines := Lines(text);
    out := [];
    var i := 0;
    while i < |lines|
      invariant i <= |lines|
      invariant out + ParseBlocks(lines[i..], number) == ParseBlocks(lines, number)
    {
      BlocksFrom(lines, i, number);
      if IsHeader(lines[i]) {
        var step, next := ReadBlock(StepOfHeader(lines[i]), lines, i + 1, number);
        OneMoreTask(out, step, ParseBlocks(lines[next..], number));
        out := out + [step];
        i := next;
      } else {
        i := i + 1;
      }
    }
  }

  lemma BlocksFrom(lines: seq<string>, i: nat, number: NumberParser)
    requires i < |lines|
    ensures
      var rest := lines[i + 1..];
      ParseBlocks(lines[i..], number)
      == (if IsHeader(lines[i]) then [ReadFields(StepOfHeader(lines[i]), rest, number)] else []) + ParseBlocks(rest, number)
  {
    assert lines[i..][1..] == lines[i + 1..];
    assert [] + ParseBlocks(lines[i + 1..], number) == ParseBlocks(lines[i + 1..], number);
  }

  lemma OneMoreTask(out: seq<CandidateStep>, step: CandidateStep, more: seq<CandidateStep>)
    ensures out + ([step] + more) == out + [step] + more
  {
  }

  // ---- Printing -----------------------------------------------------------------------------

  function OptionalLine(tag: string, value: string): seq<string> {
    if value == [] then [] else [tag + value]
  }

  /** The order in which a block's fields are printed. */
  function PrintedField(k: nat): Field {
    match k
    case 0 => AgentField
    case 1 => FilesField
    case 2 => WorkField
    case 3 => AcceptanceField
    case 4 => DependsField
    case _ => NoField
  }

  function FieldLine(step: CandidateStep, field: Field): seq<string> {
    match field
    case AgentField => OptionalLine("Agent: ", step.agent)
    case FilesField => if step.files == [] then [] else ["Files: " + Join(step.files, ", ")]
    case WorkField => OptionalLine("Work: ", step.work)
    case AcceptanceField => OptionalLine("Acceptance: ", step.acceptance)
    case DependsField => ["Depends: " + if step.depends == [] then "none" else Join(step.depends, ", ")]
    case _ => []
  }

  /** The lines of the first `n` printed fields. */
  function FieldLines(step: CandidateStep, n: nat): seq<string> {
    if n == 0 then [] else FieldLines(step, n - 1) + FieldLine(step, PrintedField(n - 1))
  }

  const PRINTED_FIELDS: nat := 5

  function HeaderText(id: string, description: string): string {
    "TASK " + id + ": " + description
  }

  function BlockLines(step: CandidateStep): seq<string> {
    [HeaderText(step.id, step.description)] + FieldLines(step, PRINTED_FIELDS) + [""]
  }

  /** The steps in rank order; an id without a step is passed over. */
  function Ranked(order: seq<string>, stepsById: map<string, CandidateStep>): seq<CandidateStep> {
    if order == [] then []
    else
      var id := order[|order| - 1];
      Ranked(order[..|order| - 1], stepsById) + if id in stepsById then [stepsById[id]] else []
  }

  function Section(steps: seq<CandidateStep>): seq<string> {
    if steps == [] then [] else BlockLines(steps[0]) + Section(steps[1..])
  }

  lemma {:induction false} SectionSnoc(steps: seq<CandidateStep>, last: CandidateStep)
    ensures Section(steps + [last]) == Section(steps) + BlockLines(last)
  {
    if steps == [] {
      assert steps + [last] == [last];
      assert Section([last][1..]) == [];
    } else {
      var first, rest := steps[0], steps[1..];
      SectionSnoc(rest, last);
      Regroup([first], rest, [last]);
      assert steps == [first] + rest;
      SectionCons(first, rest);
      SectionCons(first, rest + [last]);
      Regroup(BlockLines(first), Section(rest), BlockLines(last));
    }
  }

  lemma Regroup<T>(a: seq<T>, b: seq<T>, c: seq<T>)
    ensures a + (b + c) == a + b + c
  {
  }

  lemma SectionCons(first: CandidateStep, rest: seq<CandidateStep>)
    ensures Section([first] + rest) == BlockLines(first) + Section(rest)
  {
    assert ([first] + rest)[1..] == rest;
  }

  /** The text of a block as far as its first `n` fields. */
  ghost function BlockText(step: CandidateStep, n: nat): string {
    Unlines([HeaderText(step.id, step.description)] + FieldLines(step, n))
  }

  lemma NextField(step: CandidateStep, n: nat, line: string)
    requires FieldLine(step, PrintedField(n)) == [line]
    ensures BlockText(step, n + 1) == BlockText(step, n) + line + "\n"
  {
    var lines := [HeaderText(step.id, step.description)] + FieldLines(step, n);
    assert [HeaderText(step.id, step.description)] + FieldLines(step, n + 1) == lines + [line];
    UnlinesConcat(lines, [line]);
    UnlinesOne(line);
  }

  lemma FieldAbsent(step: CandidateStep, n: nat)
    requires FieldLine(step, PrintedField(n)) == []
    ensures BlockText(step, n + 1) == BlockText(step, n)
  {
    assert FieldLines(step, n + 1) == FieldLines(step, n);
  }

  method RenderAgentAndFiles(step: CandidateStep) returns (s: string)
    ensures s == BlockText(step, 2)
  {
    s := "TASK " + step.id + ": " + step.description + "\n";
    UnlinesOne(HeaderText(step.id, step.description));
    assert s == BlockText(step, 0);
    if step.agent != [] {
      var line := "Agent: " + step.agent;
      s := s + line + "\n";
      NextField(step, 0, line);
    } else {
      FieldAbsent(step, 0);
    }
    if step.files != [] {
      var line := "Files: " + Join(step.files, ", ");
      s := s + line + "\n";
      NextField(step, 1, line);
    } else {
      FieldAbsent(step, 1);
    }
  }

  method RenderFields(step: CandidateStep) returns (s: string)
    ensures s == BlockText(step, 4)
  {
    s := RenderAgentAndFiles(step);
    if step.work != [] {
      var line := "Work: " + step.work;
      s := s + line + "\n";
      NextField(step, 2, line);
    } else {
      FieldAbsent(step, 2);
    }
    if step.acceptance != [] {
      var line := "Acceptance: " + step.acceptance;
      s := s + line + "\n";
      NextField(step, 3, line);
    } else {
      FieldAbsent(step, 3);
    }
  }

  method RenderBlock(step: CandidateStep) returns (s: string)
    ensures s == Unlines(Section([step]))
  {
    s := RenderFields(step);
    var dep := if step.depends == [] then "none" else Join(step.depends, ", ");
    var line := "Depends: " + dep;
    s := s + line + "\n";
    NextField(step, 4, line);
    s := s + "\n";
    OneBlock(step);
    UnlinesConcat([HeaderText(step.id, step.description)] + FieldLines(step, PRINTED_FIELDS), [""]);
    UnlinesOne("");
  }

  lemma OneBlock(step: CandidateStep)
    ensures Section([step]) == BlockLines(step)
  {
    SectionSnoc([], step);
    assert [] + [step] == [step];
  }

  /** The block of the step with this id, if there is one. */
  function Ranking(id: string, stepsById: map<string, CandidateStep>): seq<string> {
    if id in stepsById then Section([stepsById[id]]) else []
  }

  lemma NextRanked(order: seq<string>, i: nat, stepsById: map<string, CandidateStep>)
    requires i < |order|
    ensures Section(Ranked(order[..i + 1], stepsById))
         == Section(Ranked(order[..i], stepsById)) + Ranking(order[i], stepsById)
  {
    RankedSnoc(order, i, stepsById);
    var steps := Ranked(order[..i], stepsById);
    if order[i] in stepsById {
      SectionSnoc(steps, stepsById[order[i]]);
      OneBlock(stepsById[order[i]]);
    } else {
      assert Section(steps) + [] == Section(steps);
    }
  }

  lemma RankedSnoc(order: seq<string>, i: nat, stepsById: map<string, CandidateStep>)
    requires i < |order|
    ensures Ranked(order[..i + 1], stepsById)
         == if order[i] in stepsById then Ranked(order[..i], stepsById) + [stepsById[order[i]]] else Ranked(order[..i], stepsById)
  {
    assert order[..i + 1][..i] == order[..i];
  }

  method RenderRanked(id: string, stepsById: map<string, CandidateStep>) returns (s: string)
    ensures s == Unlines(Ranking(id, stepsById))
  {
    if id in stepsById {
      s := RenderBlock(stepsById[id]);
    } else {
      s := "";
    }
  }

  /** The text `render_ranked_plan` writes after `---`. */
  ghost function SectionText(order: seq<string>, stepsById: map<string, CandidateStep>): string {
    "\n" + Unlines(Section(Ranked(order, stepsById)))
  }

  lemma NextBlock(order: seq<string>, i: nat, stepsById: map<string, CandidateStep>)
    requires i < |order|
    ensures SectionText(order[..i + 1], stepsById)
         == SectionText(order[..i], stepsById) + Unlines(Ranking(order[i], stepsById))
  {
    NextRanked(order, i, stepsById);
    UnlinesConcat(Section(Ranked(order[..i], stepsById)), Ranking(order[i], stepsById));
  }

  method RenderTaskSection(order: seq<string>, stepsById: map<string, CandidateStep>) returns (s: string)
    ensures s == SectionText(order, stepsById)
  {
    s := "\n";
    var i := 0;
    while i < |order|
      invariant i <= |order|
      invariant s == SectionText(order[..i], stepsById)
    {
      NextBlock(order, i, stepsById);
      var block := RenderRanked(order[i], stepsById);
      s := s + block;
      i := i + 1;
    }
    assert order[..i] == order;
  }

  // ---- Reading back what was printed --------------------------------------------------------

  /** Trimmed, and on one line. */
  predicate IsField(s: string) {
    Trim(s) == s && '\n' !in s
  }

  predicate GoodItems(items: seq<string>) {
    forall i :: 0 <= i < |items| ==> items[i] != [] && items[i] != "none" && ',' !in items[i] && IsField(items[i])
  }

  predicate Printable(step: CandidateStep) {
    && IsField(step.id) && ':' !in step.id
    && IsField(step.description) && IsField(step.agent) && IsField(step.work) && IsField(step.acceptance)
    && GoodItems(step.files) && GoodItems(step.depends)
  }

  /** The two numbers are not printed; the factor is inferred again from the work. */
  function Reread(step: CandidateStep): CandidateStep {
    step.(editFactor := if step.work == [] then 0.25 else InferEditFactor(step.work), architecturalRisk := None)
  }

  lemma TrimAfterSpace(s: string)
    ensures Trim(" " + s) == Trim(s)
  {
    assert (" " + s)[1..] == s;
  }

  lemma {:induction false} JoinedItems(items: seq<string>)
    requires GoodItems(items) && items != []
    ensures Items(Split(" " + Join(items, ", "), ',')) == items
  {
    var first, rest := " " + items[0], items[1..];
    TrimAfterSpace(items[0]);
    if rest == [] {
      assert items == [items[0]];
      SplitNone(first, ',');
      assert Items([first][1..]) == [];
    } else {
      var tail := " " + Join(rest, ", ");
      assert " " + Join(items, ", ") == first + [','] + tail;
      SplitAt(first, tail, ',');
      JoinedItems(rest);
      assert ([first] + Split(tail, ','))[1..] == Split(tail, ',');
      assert items == [items[0]] + rest;
    }
  }

  lemma NoneIsNoItem()
    ensures Items(Split(" none", ',')) == []
  {
    SplitNone(" none", ',');
    TrimAfterSpace("none");
    assert Trim("none") == "none";
    assert Items([" none"][1..]) == [];
  }

  /** A labelled line is no header and sets the field of its label. */
  lemma LabelledLine(tag: string, field: Field, v: string)
    requires Labels(tag, field)
    ensures tag != "" && !IsWhitespace(tag[0]) && FieldOf(tag + v) == (field, v)
    ensures !IsHeader(tag + v) && FieldOf(TrimStart(tag + v)) == (field, v)
  {
    var line := tag + v;
    assert line[0] == tag[0] && line[1] == tag[1];
    assert TrimStart(line) == line;
    assert line[|tag|..] == v;
  }

  lemma BlankLine()
    ensures !IsHeader("") && FieldOf(TrimStart("")) == (NoField, [])
  {
  }

  lemma HeaderLine(id: string, description: string)
    requires Trim(id) == id && ':' !in id && Trim(description) == description
    ensures
      var line := "TASK " + id + ": " + description;
      IsHeader(line) && StepOfHeader(line) == NewStep(id, description)
  {
    var line := "TASK " + id + ": " + description;
    var rest := id + (":" + (" " + description));
    assert line == "TASK " + rest && line[5..] == rest;
    FirstColon(id, " " + description);
    assert rest[..|id|] == id && rest[|id| + 1..] == " " + description;
    TrimAfterSpace(description);
  }

  lemma {:induction false} FirstColon(id: string, after: string)
    requires ':' !in id
    ensures Find(id + (":" + after), ":") == Some(|id|)
  {
    var s := id + (":" + after);
    if id != [] {
      assert s[1..] == id[1..] + (":" + after);
      assert s[0] == id[0];
      FirstColon(id[1..], after);
    }
  }

  lemma SpaceBefore(w: string, needle: string)
    requires needle != [] && needle[0] != ' '
    ensures Contains(" " + w, needle) == Contains(w, needle)
  {
    assert (" " + w)[1..] == w;
    assert (" " + w)[0] != needle[0];
  }

  lemma InferSkipsSpace(work: string)
    ensures InferEditFactor(" " + work) == InferEditFactor(work)
  {
    var w := ToLower(work);
    assert ToLower(" " + work) == " " + w;
    SpaceBefore(w, "rewrite");
    SpaceBefore(w, "redesign");
    SpaceBefore(w, "refactor");
    SpaceBefore(w, "split");
    SpaceBefore(w, "extract");
    SpaceBefore(w, "tweak");
    SpaceBefore(w, "comment");
    SpaceBefore(w, "typo");
    SpaceBefore(w, "fix line");
    SpaceBefore(w, "rename");
    SpaceBefore(w, "trivial");
  }

  // ---- The printed block, read line by line -------------------------------------------------

  lemma ReadOne(step: CandidateStep, line: string, rest: seq<string>, number: NumberParser)
    requires !IsHeader(line)
    ensures ReadFields(step, [line] + rest, number) == ReadFields(ReadField(step, line, number), rest, number)
  {
    assert ([line] + rest)[1..] == rest;
  }

  /** What an optional labelled line does to the step when read. */
  lemma ReadOptional(step: CandidateStep, tag: string, field: Field, v: string, rest: seq<string>, number: NumberParser)
    requires
      || (tag == "Agent:" && field == AgentField) || (tag == "Work:" && field == WorkField)
      || (tag == "Acceptance:" && field == AcceptanceField)
    ensures ReadFields(step, OptionalLine(tag + " ", v) + rest, number)
         == ReadFields(if v == [] then step else SetField(step, field, " " + v, number), rest, number)
  {
    if v == [] {
      assert OptionalLine(tag + " ", v) + rest == rest;
    } else {
      assert tag + " " + v == tag + (" " + v);
      LabelledLine(tag, field, " " + v);
      ReadOne(step, tag + (" " + v), rest, number);
    }
  }

  /** What reading the first `n` printed fields of `step` gives. */
  function Copied(step: CandidateStep, n: nat): CandidateStep {
    CandidateStep(step.id, step.description,
                  if n > 0 then step.agent else [],
                  if n > 1 then step.files else [],
                  if n > 2 then step.work else [],
                  if n > 3 then step.acceptance else [],
                  if n > 4 then step.depends else [],
                  if n > 2 && step.work != [] then InferEditFactor(step.work) else 0.25,
                  None)
  }

  lemma ReadItems(step: CandidateStep, tag: string, field: Field, items: seq<string>, rest: seq<string>, number: NumberParser)
    requires (tag == "Files:" && field == FilesField) || (tag == "Depends:" && field == DependsField)
    requires GoodItems(items) && items != []
    ensures ReadFields(step, [tag + " " + Join(items, ", ")] + rest, number)
         == ReadFields(if field == FilesField then step.(files := items) else step.(depends := items), rest, number)
  {
    var v := " " + Join(items, ", ");
    assert tag + " " + Join(items, ", ") == tag + v;
    LabelledLine(tag, field, v);
    ReadOne(step, tag + v, rest, number);
    SetItems(step, field, items, number);
  }

  lemma SetItems(step: CandidateStep, field: Field, items: seq<string>, number: NumberParser)
    requires (field == FilesField || field == DependsField) && GoodItems(items) && items != []
    ensures SetField(step, field, " " + Join(items, ", "), number)
         == if field == FilesField then step.(files := items) else step.(depends := items)
  {
    JoinedItems(items);
  }

  lemma ReadNoDepends(step: CandidateStep, rest: seq<string>, number: NumberParser)
    ensures ReadFields(step, ["Depends: none"] + rest, number) == ReadFields(step.(depends := []), rest, number)
  {
    assert "Depends: none" == "Depends:" + " none";
    LabelledLine("Depends:", DependsField, " none");
    ReadOne(step, "Depends:" + " none", rest, number);
    NoneIsNoItem();
  }

  ghost predicate Reads(from: CandidateStep, lines: seq<string>, to: CandidateStep, rest: seq<string>, number: NumberParser) {
    ReadFields(from, lines + rest, number) == ReadFields(to, rest, number)
  }

  lemma ReadAgent(step: CandidateStep, rest: seq<string>, number: NumberParser)
    requires Printable(step)
    ensures Reads(Copied(step, 0), FieldLine(step, AgentField), Copied(step, 1), rest, number)
  {
    TrimAfterSpace(step.agent);
    assert "Agent:" + " " == "Agent: ";
    ReadOptional(Copied(step, 0), "Agent:", AgentField, step.agent, rest, number);
  }

  lemma ReadFiles(step: CandidateStep, rest: seq<string>, number: NumberParser)
    requires Printable(step)
    ensures Reads(Copied(step, 1), FieldLine(step, FilesField), Copied(step, 2), rest, number)
  {
    if step.files == [] {
      assert FieldLine(step, FilesField) + rest == rest;
    } else {
      assert "Files:" + " " == "Files: ";
      ReadItems(Copied(step, 1), "Files:", FilesField, step.files, rest, number);
    }
  }

  lemma ReadWork(step: CandidateStep, rest: seq<string>, number: NumberParser)
    requires Printable(step)
    ensures Reads(Copied(step, 2), FieldLine(step, WorkField), Copied(step, 3), rest, number)
  {
    TrimAfterSpace(step.work);
    InferSkipsSpace(step.work);
    assert "Work:" + " " == "Work: ";
    ReadOptional(Copied(step, 2), "Work:", WorkField, step.work, rest, number);
  }

  lemma ReadAcceptance(step: CandidateStep, rest: seq<string>, number: NumberParser)
    requires Printable(step)
    ensures Reads(Copied(step, 3), FieldLine(step, AcceptanceField), Copied(step, 4), rest, number)
  {
    TrimAfterSpace(step.acceptance);
    assert "Acceptance:" + " " == "Acceptance: ";
    ReadOptional(Copied(step, 3), "Acceptance:", AcceptanceField, step.acceptance, rest, number);
  }

  lemma ReadDepends(step: CandidateStep, rest: seq<string>, number: NumberParser)
    requires Printable(step)
    ensures Reads(Copied(step, 4), FieldLine(step, DependsField), Copied(step, 5), rest, number)
  {
    if step.depends == [] {
      assert "Depends: " + "none" == "Depends: none";
      ReadNoDepends(Copied(step, 4), rest, number);
    } else {
      assert "Depends:" + " " == "Depends: ";
      ReadItems(Copied(step, 4), "Depends:", DependsField, step.depends, rest, number);
    }
  }

  lemma ReadFieldLine(step: CandidateStep, k: nat, rest: seq<string>, number: NumberParser)
    requires Printable(step) && k < PRINTED_FIELDS
    ensures Reads(Copied(step, k), FieldLine(step, PrintedField(k)), Copied(step, k + 1), rest, number)
  {
    match k
    case 0 => ReadAgent(step, rest, number);
    case 1 => ReadFiles(step, rest, number);
    case 2 => ReadWork(step, rest, number);
    case 3 => ReadAcceptance(step, rest, number);
    case 4 => ReadDepends(step, rest, number);
    case _ =>
  }

  lemma LastLineAside(step: CandidateStep, n: nat, rest: seq<string>)
    requires n > 0
    ensures FieldLines(step, n) + rest == FieldLines(step, n - 1) + (FieldLine(step, PrintedField(n - 1)) + rest)
  {
  }

  lemma {:induction false} ReadFieldLines(step: CandidateStep, n: nat, rest: seq<string>, number: NumberParser)
    requires Printable(step) && n <= PRINTED_FIELDS
    ensures Reads(NewStep(step.id, step.description), FieldLines(step, n), Copied(step, n), rest, number)
  {
    if n == 0 {
      assert FieldLines(step, 0) + rest == rest;
    } else {
      LastLineAside(step, n, rest);
      ReadFieldLines(step, n - 1, FieldLine(step, PrintedField(n - 1)) + rest, number);
      ReadFieldLine(step, n - 1, rest, number);
    }
  }

  predicate NoHeaders(lines: seq<string>) {
    lines == [] || (!IsHeader(lines[0]) && NoHeaders(lines[1..]))
  }

  lemma {:induction false} SkipNonHeaders(head: seq<string>, rest: seq<string>, number: NumberParser)
    requires NoHeaders(head)
    ensures ParseBlocks(head + rest, number) == ParseBlocks(rest, number)
  {
    if head == [] {
      assert head + rest == rest;
    } else {
      assert (head + rest)[1..] == head[1..] + rest;
      SkipNonHeaders(head[1..], rest, number);
    }
  }

  lemma FieldLineIsNoHeader(step: CandidateStep, k: nat)
    requires k < PRINTED_FIELDS
    ensures |FieldLine(step, PrintedField(k))| <= 1 && NoHeaders(FieldLine(step, PrintedField(k)))
  {
    var line := FieldLine(step, PrintedField(k));
    if line != [] {
      var text := line[0];
      assert line[1..] == [];
      assert text[0] in "AFWD";
      assert TrimStart(text) == text;
    }
  }

  lemma {:induction false} NoHeadersConcat(a: seq<string>, b: seq<string>)
    requires NoHeaders(a) && NoHeaders(b)
    ensures NoHeaders(a + b)
  {
    if a == [] {
      assert a + b == b;
    } else {
      assert (a + b)[1..] == a[1..] + b;
      NoHeadersConcat(a[1..], b);
    }
  }

  lemma {:induction false} FieldLinesHaveNoHeaders(step: CandidateStep, n: nat)
    requires n <= PRINTED_FIELDS
    ensures NoHeaders(FieldLines(step, n))
  {
    if n > 0 {
      FieldLinesHaveNoHeaders(step, n - 1);
      FieldLineIsNoHeader(step, n - 1);
      NoHeadersConcat(FieldLines(step, n - 1), FieldLine(step, PrintedField(n - 1)));
    }
  }

  predicate StartsBlock(lines: seq<string>) {
    lines == [] || IsHeader(lines[0])
  }

  lemma SectionStartsBlock(steps: seq<CandidateStep>)
    requires forall i :: 0 <= i < |steps| ==> Printable(steps[i])
    ensures StartsBlock(Section(steps))
  {
    if steps != [] {
      HeaderLine(steps[0].id, steps[0].description);
    }
  }

  lemma ReadBlankLine(step: CandidateStep, rest: seq<string>, number: NumberParser)
    requires StartsBlock(rest)
    ensures ReadFields(step, [""] + rest, number) == step
  {
    BlankLine();
    ReadOne(step, "", rest, number);
  }

  lemma AllCopied(step: CandidateStep)
    ensures Copied(step, PRINTED_FIELDS) == Reread(step)
  {
  }

  lemma ReadBlockBody(step: CandidateStep, n: nat, rest: seq<string>, number: NumberParser)
    requires Printable(step) && StartsBlock(rest) && n <= PRINTED_FIELDS
    ensures ReadFields(NewStep(step.id, step.description), FieldLines(step, n) + ([""] + rest), number) == Copied(step, n)
  {
    ReadFieldLines(step, n, [""] + rest, number);
    ReadBlankLine(Copied(step, n), rest, number);
  }

  /** Parsing one printed block returns its step, and goes on with what follows. */
  lemma ParsePrintedBlock(step: CandidateStep, rest: seq<string>, number: NumberParser)
    requires Printable(step) && StartsBlock(rest)
    ensures ParseBlocks(BlockLines(step) + rest, number) == [Reread(step)] + ParseBlocks(rest, number)
  {
    var header, fields := HeaderText(step.id, step.description), FieldLines(step, PRINTED_FIELDS);
    var body := fields + ([""] + rest);
    assert BlockLines(step) + rest == [header] + body;
    HeaderLine(step.id, step.description);
    ReadBlockBody(step, PRINTED_FIELDS, rest, number);
    AllCopied(step);
    FieldLinesHaveNoHeaders(step, PRINTED_FIELDS);
    BodyIsSkipped(fields, rest, number);
    ParseHeaderAndBody(header, body, number);
  }

  lemma BodyIsSkipped(fields: seq<string>, rest: seq<string>, number: NumberParser)
    requires NoHeaders(fields)
    ensures ParseBlocks(fields + ([""] + rest), number) == ParseBlocks(rest, number)
  {
    BlankLine();
    SkipNonHeaders(fields, [""] + rest, number);
    SkipNonHeaders([""], rest, number);
  }

  lemma ParseHeaderAndBody(header: string, body: seq<string>, number: NumberParser)
    requires IsHeader(header)
    ensures ParseBlocks([header] + body, number)
         == [ReadFields(StepOfHeader(header), body, number)] + ParseBlocks(body, number)
  {
    assert ([header] + body)[1..] == body;
  }

  function Rereads(steps: seq<CandidateStep>): seq<CandidateStep> {
    if steps == [] then [] else [Reread(steps[0])] + Rereads(steps[1..])
  }

  /** Parsing the blocks written after `---` returns the same tasks in rank order. */
  lemma {:induction false} SectionReadsBack(steps: seq<CandidateStep>, number: NumberParser)
    requires forall i :: 0 <= i < |steps| ==> Printable(steps[i])
    ensures ParseBlocks(Section(steps), number) == Rereads(steps)
  {
    if steps != [] {
      SectionStartsBlock(steps[1..]);
      ParsePrintedBlock(steps[0], Section(steps[1..]), number);
      SectionReadsBack(steps[1..], number);
    }
  }

  /** When every ranked id has its step, block `i` is read back as the task ranked `i`-th. */
  lemma {:induction false} RankedSteps(order: seq<string>, stepsById: map<string, CandidateStep>)
    requires forall i :: 0 <= i < |order| ==> order[i] in stepsById
    ensures |Ranked(order, stepsById)| == |order|
    ensures forall i :: 0 <= i < |order| ==> Ranked(order, stepsById)[i] == stepsById[order[i]]
  {
    if order != [] {
      RankedSteps(order[..|order| - 1], stepsById);
    }
  }

  lemma {:induction false} RankedArePrintable(order: seq<string>, stepsById: map<string, CandidateStep>)
    requires forall id :: id in stepsById ==> Printable(stepsById[id])
    ensures forall i :: 0 <= i < |Ranked(order, stepsById)| ==> Printable(Ranked(order, stepsById)[i])
  {
    if order != [] {
      RankedArePrintable(order[..|order| - 1], stepsById);
    }
  }

  lemma {:induction false} RereadsAt(steps: seq<CandidateStep>)
    ensures |Rereads(steps)| == |steps|
    ensures forall i :: 0 <= i < |steps| ==> Rereads(steps)[i] == Reread(steps[i])
  {
    if steps != [] {
      RereadsAt(steps[1..]);
    }
  }

  // ---- The lines inside the text ------------------------------------------------------------

  lemma {:induction false} TrimStartLength(s: string)
    ensures |TrimStart(s)| <= |s| && (|TrimStart(s)| == |s| ==> TrimStart(s) == s)
    ensures forall c :: c in TrimStart(s) ==> c in s
  {
    if s != [] && IsWhitespace(s[0]) {
      TrimStartLength(s[1..]);
    }
  }

  lemma {:induction false} TrimEndLength(s: string)
    ensures |TrimEnd(s)| <= |s| && (|TrimEnd(s)| == |s| ==> TrimEnd(s) == s)
    ensures forall c :: c in TrimEnd(s) ==> c in s
  {
    if s != [] && IsWhitespace(s[|s| - 1]) {
      TrimEndLength(s[..|s| - 1]);
    }
  }

  /** A trimmed string on one line ends in no carriage return. */
  lemma FieldIsOneLine(s: string)
    requires IsField(s)
    ensures IsOneLine(s)
  {
    TrimEndStops(TrimStart(s));
  }

  lemma AfterLabel(tag: string, s: string)
    requires '\n' !in tag && IsOneLine(s) && (s != [] || IsOneLine(tag))
    ensures IsOneLine(tag + s)
  {
    if s != [] {
      assert (tag + s)[|tag + s| - 1] == s[|s| - 1];
    } else {
      assert tag + s == tag;
    }
  }

  lemma {:induction false} JoinedIsOneLine(items: seq<string>)
    requires GoodItems(items)
    ensures IsOneLine(Join(items, ", "))
  {
    if |items| > 0 {
      FieldIsOneLine(items[0]);
      if |items| > 1 {
        JoinedIsOneLine(items[1..]);
        AfterLabel(items[0] + ", ", Join(items[1..], ", "));
      }
    }
  }

  lemma FieldLineIsOneLine(step: CandidateStep, k: nat)
    requires Printable(step) && k < PRINTED_FIELDS
    ensures AllOneLine(FieldLine(step, PrintedField(k)))
  {
    match k
    case 0 => FieldIsOneLine(step.agent); AfterLabel("Agent: ", step.agent);
    case 1 => JoinedIsOneLine(step.files); AfterLabel("Files: ", Join(step.files, ", "));
    case 2 => FieldIsOneLine(step.work); AfterLabel("Work: ", step.work);
    case 3 => FieldIsOneLine(step.acceptance); AfterLabel("Acceptance: ", step.acceptance);
    case _ => JoinedIsOneLine(step.depends); AfterLabel("Depends: ", Join(step.depends, ", "));
  }

  ghost predicate AllOneLine(lines: seq<string>) {
    forall i :: 0 <= i < |lines| ==> IsOneLine(lines[i])
  }

  lemma {:induction false} FieldLinesAreOneLine(step: CandidateStep, n: nat)
    requires Printable(step) && n <= PRINTED_FIELDS
    ensures AllOneLine(FieldLines(step, n))
  {
    if n > 0 {
      FieldLinesAreOneLine(step, n - 1);
      FieldLineIsOneLine(step, n - 1);
      OneLineConcat(FieldLines(step, n - 1), FieldLine(step, PrintedField(n - 1)));
    }
  }

  lemma HeaderIsOneLine(step: CandidateStep)
    requires Printable(step)
    ensures IsOneLine(HeaderText(step.id, step.description))
  {
    FieldIsOneLine(step.description);
    AfterLabel("TASK " + step.id + ": ", step.description);
  }

  lemma BlockIsOneLine(step: CandidateStep)
    requires Printable(step)
    ensures AllOneLine(BlockLines(step))
  {
    var header, fields := HeaderText(step.id, step.description), FieldLines(step, PRINTED_FIELDS);
    HeaderIsOneLine(step);
    FieldLinesAreOneLine(step, PRINTED_FIELDS);
    OneLineConcat([header], fields);
    OneLineConcat([header] + fields, [""]);
  }

  lemma {:induction false} SectionIsOneLine(steps: seq<CandidateStep>)
    requires forall i :: 0 <= i < |steps| ==> Printable(steps[i])
    ensures AllOneLine(Section(steps))
  {
    if steps != [] {
      BlockIsOneLine(steps[0]);
      SectionIsOneLine(steps[1..]);
      OneLineConcat(BlockLines(steps[0]), Section(steps[1..]));
    }
  }

  // ---- What the parser can return -----------------------------------------------------------

  lemma {:induction false} TrimStartStops(s: string)
    ensures TrimStart(s) == [] || !IsWhitespace(TrimStart(s)[0])
  {
    if s != [] && IsWhitespace(s[0]) {
      TrimStartStops(s[1..]);
    }
  }

  lemma {:induction false} TrimEndStops(s: string)
    ensures TrimEnd(s) == [] || (!IsWhitespace(TrimEnd(s)[|TrimEnd(s)| - 1]) && TrimEnd(s)[0] == s[0])
  {
    if s != [] && IsWhitespace(s[|s| - 1]) {
      TrimEndStops(s[..|s| - 1]);
    }
  }

  /** What `trim` leaves of a line, or of a part of it, is trimmed and on one line. */
  lemma TrimGivesField(s: string)
    requires '\n' !in s
    ensures IsField(Trim(s)) && forall c :: c in Trim(s) ==> c in s
  {
    TrimStartStops(s);
    TrimEndStops(TrimStart(s));
    TrimStartLength(s);
    TrimEndLength(TrimStart(s));
    assert TrimStart(Trim(s)) == Trim(s);
  }

  lemma {:induction false} SplitPieces(s: string, sep: char)
    ensures forall i :: 0 <= i < |Split(s, sep)| ==> sep !in Split(s, sep)[i] && forall c :: c in Split(s, sep)[i] ==> c in s
  {
    if s != [] {
      SplitPieces(s[1..], sep);
    }
  }

  lemma {:induction false} ItemsAreGood(pieces: seq<string>)
    requires forall i :: 0 <= i < |pieces| ==> ',' !in pieces[i] && '\n' !in pieces[i]
    ensures GoodItems(Items(pieces))
  {
    if pieces != [] {
      TrimGivesField(pieces[0]);
      ItemsAreGood(pieces[1..]);
    }
  }

  lemma SplitItemsAreGood(v: string)
    requires '\n' !in v
    ensures GoodItems(Items(Split(v, ',')))
  {
    SplitPieces(v, ',');
    ItemsAreGood(Split(v, ','));
  }

  lemma SetFieldPrintable(step: CandidateStep, field: Field, v: string, number: NumberParser)
    requires Printable(step) && '\n' !in v
    ensures Printable(SetField(step, field, v, number))
  {
    TrimGivesField(v);
    SplitItemsAreGood(v);
  }

  lemma ReadFieldPrintable(step: CandidateStep, line: string, number: NumberParser)
    requires Printable(step) && '\n' !in line
    ensures Printable(ReadField(step, line, number))
  {
    TrimStartLength(line);
    var (field, v) := FieldOf(TrimStart(line));
    assert forall c :: c in v ==> c in TrimStart(line);
    SetFieldPrintable(step, field, v, number);
  }

  lemma {:induction false} ReadFieldsPrintable(step: CandidateStep, lines: seq<string>, number: NumberParser)
    requires Printable(step) && forall i :: 0 <= i < |lines| ==> '\n' !in lines[i]
    ensures Printable(ReadFields(step, lines, number))
    decreases |lines|
  {
    if lines != [] && !IsHeader(lines[0]) {
      ReadFieldPrintable(step, lines[0], number);
      ReadFieldsPrintable(ReadField(step, lines[0], number), lines[1..], number);
    }
  }

  lemma NoColonBefore(rest: string)
    ensures
      var colon := Find(rest, ":");
      ':' !in if colon.Some? then rest[..colon.value] else rest
  {
    FindIsFirst(rest, ":");
    var colon := Find(rest, ":");
    var head := if colon.Some? then rest[..colon.value] else rest;
    forall j | 0 <= j < |head| ensures head[j] != ':' {
      assert !(":" <= rest[j..]);
    }
  }

  lemma HeaderPrintable(line: string)
    requires IsHeader(line) && '\n' !in line
    ensures Printable(StepOfHeader(line))
  {
    TrimStartLength(line);
    var rest := TrimStart(line)[5..];
    NoColonBefore(rest);
    var colon := Find(rest, ":");
    if colon.Some? {
      TrimGivesField(rest[..colon.value]);
      TrimGivesField(rest[colon.value + 1..]);
    } else {
      TrimGivesField(rest);
    }
  }

  lemma {:induction false} ParsedArePrintable(lines: seq<string>, number: NumberParser)
    requires forall i :: 0 <= i < |lines| ==> '\n' !in lines[i]
    ensures forall i :: 0 <= i < |ParseBlocks(lines, number)| ==> Printable(ParseBlocks(lines, number)[i])
    decreases |lines|
  {
    if lines != [] {
      ParsedArePrintable(lines[1..], number);
      if IsHeader(lines[0]) {
        HeaderPrintable(lines[0]);
        ReadFieldsPrintable(StepOfHeader(lines[0]), lines[1..], number);
      }
    }
  }

  // ---- Round trips of the text --------------------------------------------------------------

  lemma TextIsItsLines(lines: seq<string>, number: NumberParser)
    requires AllOneLine(lines)
    ensures ParseText(Unlines(lines), number) == ParseBlocks(lines, number)
  {
    LinesOfUnlines(lines);
  }

  lemma BlankLineBefore(lines: seq<string>, number: NumberParser)
    requires AllOneLine(lines)
    ensures ParseText("\n" + Unlines(lines), number) == ParseBlocks(lines, number)
  {
    UnlinesConcat([""], lines);
    UnlinesOne("");
    TextIsItsLines([""] + lines, number);
    BlankLine();
    SkipNonHeaders([""], lines, number);
  }

  lemma PrintedSectionParses(steps: seq<CandidateStep>, number: NumberParser)
    requires forall i :: 0 <= i < |steps| ==> Printable(steps[i])
    ensures ParseText("\n" + Unlines(Section(steps)), number) == Rereads(steps)
  {
    SectionIsOneLine(steps);
    BlankLineBefore(Section(steps), number);
    SectionReadsBack(steps, number);
  }

  /**
   The section after `---` comes back as one task for each ranked id that has a step, in rank order and with all
   printed fields, if and only if those steps are printable.
   */
  lemma TaskSectionRoundTrip(order: seq<string>, stepsById: map<string, CandidateStep>, number: NumberParser)
    ensures
      var steps := Ranked(order, stepsById);
      && ((forall i :: 0 <= i < |steps| ==> Printable(steps[i]))
        <==> ParseText(SectionText(order, stepsById), number) == Rereads(steps))
  {
    var steps, text := Ranked(order, stepsById), SectionText(order, stepsById);
    RereadsAt(steps);
    if forall i :: 0 <= i < |steps| ==> Printable(steps[i]) {
      PrintedSectionParses(steps, number);
    }
    if ParseText(text, number) == Rereads(steps) {
      LinesHaveNoFeed(text);
      ParsedArePrintable(Lines(text), number);
      forall i | 0 <= i < |steps| ensures Printable(steps[i]) {
        assert Printable(Rereads(steps)[i]);
      }
    }
  }

  /** Whatever text the tasks were parsed from, printing them and parsing again gives the same tasks. */
  lemma ParsedTasksSurvivePrinting(text: string, number: NumberParser)
    ensures
      var tasks := ParseText(text, number);
      ParseText("\n" + Unlines(Section(tasks)), number) == Rereads(tasks)
  {
    LinesHaveNoFeed(text);
    ParsedArePrintable(Lines(text), number);
    PrintedSectionParses(ParseText(text, number), number);
  }

  // ---- The whole ranked plan ----------------------------------------------------------------

  datatype ScoredStep = ScoredStep(stepId: string, energy: real)

  /** The numbers of a ranking line after `E=`; how they are formatted is left open. */
  type NumberFormat = ScoredStep -> string

  function RankingLine(r: ScoredStep, numbers: NumberFormat): string {
    "TASK " + r.stepId + " | E=" + numbers(r)
  }

  function RankingTable(scored: seq<ScoredStep>, numbers: NumberFormat): seq<string> {
    if scored == [] then []
    else RankingTable(scored[..|scored| - 1], numbers) + [RankingLine(scored[|scored| - 1], numbers)]
  }

  function Ids(scored: seq<ScoredStep>): seq<string> {
    if scored == [] then [] else Ids(scored[..|scored| - 1]) + [scored[|scored| - 1].stepId]
  }

  function TitleLines(scorerName: string): seq<string> {
    ["RANKING (by ascending E \U{2014} lower is better)", "Scorer: " + scorerName]
  }

  ghost function RankedPlanText(
    scored: seq<ScoredStep>, stepsById: map<string, CandidateStep>, scorerName: string, numbers: NumberFormat): string
  {
    Unlines(TitleLines(scorerName) + RankingTable(scored, numbers)) + "\n---\n" + SectionText(Ids(scored), stepsById)
  }

  method RenderRankingTable(scored: seq<ScoredStep>, scorerName: string, numbers: NumberFormat) returns (s: string)
    ensures s == Unlines(TitleLines(scorerName) + RankingTable(scored, numbers))
  {
    s := "RANKING (by ascending E \U{2014} lower is better)\n";
    s := s + ("Scorer: " + scorerName + "\n");
    UnlinesOne("Scorer: " + scorerName);
    ghost var title := TitleLines(scorerName);
    assert title[1..] == ["Scorer: " + scorerName];
    var i := 0;
    assert title + RankingTable([], numbers) == title;
    while i < |scored|
      invariant i <= |scored|
      invariant s == Unlines(title + RankingTable(scored[..i], numbers))
    {
      var line := RankingLine(scored[i], numbers);
      s := s + line + "\n";
      NextRankingLine(title, scored, i, numbers);
      i := i + 1;
    }
    assert scored[..i] == scored;
  }

  lemma NextRankingLine(title: seq<string>, scored: seq<ScoredStep>, i: nat, numbers: NumberFormat)
    requires i < |scored|
    ensures Unlines(title + RankingTable(scored[..i + 1], numbers))
         == Unlines(title + RankingTable(scored[..i], numbers)) + RankingLine(scored[i], numbers) + "\n"
  {
    var line := RankingLine(scored[i], numbers);
    assert scored[..i + 1][..i] == scored[..i];
    assert title + RankingTable(scored[..i + 1], numbers) == title + RankingTable(scored[..i], numbers) + [line];
    UnlinesConcat(title + RankingTable(scored[..i], numbers), [line]);
    UnlinesOne(line);
  }

  method RenderRankedPlan(
    scored: seq<ScoredStep>, stepsById: map<string, CandidateStep>, scorerName: string, numbers: NumberFormat)
    returns (s: string)
    ensures s == RankedPlanText(scored, stepsById, scorerName, numbers)
  {
    s := RenderRankingTable(scored, scorerName, numbers);
    var section := RenderTaskSection(Ids(scored), stepsById);
    s := s + "\n---\n" + section;
  }

  /** What a ranking line is read as: a task without fields, its id the text before the numbers and the numbers. */
  function Shadow(r: ScoredStep, numbers: NumberFormat): CandidateStep {
    NewStep(Trim(r.stepId + " | E=" + numbers(r)), [])
  }

  function Shadows(scored: seq<ScoredStep>, numbers: NumberFormat): seq<CandidateStep> {
    if scored == [] then []
    else Shadows(scored[..|scored| - 1], numbers) + [Shadow(scored[|scored| - 1], numbers)]
  }

  /** The id and the numbers stay on the line and hold no colon. */
  predicate PlainRow(r: ScoredStep, numbers: NumberFormat) {
    IsOneLine(r.stepId) && ':' !in r.stepId && IsOneLine(numbers(r)) && ':' !in numbers(r)
  }

  ghost predicate PlainRows(scored: seq<ScoredStep>, numbers: NumberFormat) {
    forall i :: 0 <= i < |scored| ==> PlainRow(scored[i], numbers)
  }

  lemma RankingLineIsHeader(r: ScoredStep, numbers: NumberFormat)
    requires PlainRow(r, numbers)
    ensures IsHeader(RankingLine(r, numbers)) && StepOfHeader(RankingLine(r, numbers)) == Shadow(r, numbers)
    ensures IsOneLine(RankingLine(r, numbers))
  {
    var rest := r.stepId + " | E=" + numbers(r);
    var line := RankingLine(r, numbers);
    assert line == "TASK " + rest && line[5..] == rest && TrimStart(line) == line;
    NoColonFound(rest);
    AfterLabel("TASK " + r.stepId + " | E=", numbers(r));
  }

  lemma {:induction false} NoColonFound(s: string)
    requires ':' !in s
    ensures Find(s, ":").None?
  {
    if s != [] {
      assert s[0] != ':';
      NoColonFound(s[1..]);
    }
  }

  lemma ParseHeaderOnly(line: string, tail: seq<string>, number: NumberParser)
    requires IsHeader(line) && ReadFields(StepOfHeader(line), tail, number) == StepOfHeader(line)
    ensures ParseBlocks([line] + tail, number) == [StepOfHeader(line)] + ParseBlocks(tail, number)
  {
    assert ([line] + tail)[1..] == tail;
  }

  /** No field of any step can come from these lines. */
  ghost predicate SetsNothing(tail: seq<string>, number: NumberParser) {
    forall step :: ReadFields(step, tail, number) == step
  }

  lemma RankingLineParses(r: ScoredStep, numbers: NumberFormat, tail: seq<string>, number: NumberParser)
    requires PlainRow(r, numbers) && SetsNothing(tail, number)
    ensures SetsNothing([RankingLine(r, numbers)] + tail, number)
    ensures ParseBlocks([RankingLine(r, numbers)] + tail, number) == [Shadow(r, numbers)] + ParseBlocks(tail, number)
  {
    var line := RankingLine(r, numbers);
    RankingLineIsHeader(r, numbers);
    ParseHeaderOnly(line, tail, number);
    forall step ensures ReadFields(step, [line] + tail, number) == step {
      assert ([line] + tail)[0] == line;
    }
  }

  lemma LastAside<T>(front: seq<T>, last: T, tail: seq<T>)
    ensures front + [last] + tail == front + ([last] + tail)
  {
  }

  lemma {:induction false} RankingTableParses(
    scored: seq<ScoredStep>, numbers: NumberFormat, tail: seq<string>, number: NumberParser)
    requires PlainRows(scored, numbers) && SetsNothing(tail, number)
    ensures ParseBlocks(RankingTable(scored, numbers) + tail, number) == Shadows(scored, numbers) + ParseBlocks(tail, number)
  {
    if scored == [] {
      assert RankingTable(scored, numbers) + tail == tail;
    } else {
      var front, last := scored[..|scored| - 1], scored[|scored| - 1];
      var line, more := RankingLine(last, numbers), [RankingLine(last, numbers)] + tail;
      RankingLineParses(last, numbers, tail, number);
      LastAside(RankingTable(front, numbers), line, tail);
      RankingTableParses(front, numbers, more, number);
      LastAside(Shadows(front, numbers), Shadow(last, numbers), ParseBlocks(tail, number));
    }
  }

  lemma {:induction false} RankingTableIsOneLine(scored: seq<ScoredStep>, numbers: NumberFormat)
    requires PlainRows(scored, numbers)
    ensures AllOneLine(RankingTable(scored, numbers))
  {
    if scored != [] {
      RankingLineIsHeader(scored[|scored| - 1], numbers);
      RankingTableIsOneLine(scored[..|scored| - 1], numbers);
    }
  }

  lemma TitleParses(scorerName: string)
    requires IsOneLine(scorerName)
    ensures NoHeaders(TitleLines(scorerName)) && AllOneLine(TitleLines(scorerName))
  {
    var title := TitleLines(scorerName);
    NoHeaderStart(title[0], 'R');
    NoHeaderStart(title[1], 'S');
    assert title[1..][1..] == [];
    AfterLabel("Scorer: ", scorerName);
    AfterLabel("RANKING (by ascending E \U{2014} lower is better", ")");
    assert title[0] == "RANKING (by ascending E \U{2014} lower is better" + ")";
  }

  lemma NoHeaderStart(line: string, first: char)
    requires line != [] && line[0] == first && !IsWhitespace(first) && first != 'T'
    ensures !IsHeader(line)
  {
    assert TrimStart(line) == line;
  }

  /** The lines of the whole file. */
  ghost function PlanLines(
    scored: seq<ScoredStep>, steps: seq<CandidateStep>, scorerName: string, numbers: NumberFormat): seq<string>
  {
    TitleLines(scorerName) + (RankingTable(scored, numbers) + (["", "---", ""] + Section(steps)))
  }

  lemma PlanLinesParse(
    scored: seq<ScoredStep>, steps: seq<CandidateStep>, scorerName: string, numbers: NumberFormat, number: NumberParser)
    requires IsOneLine(scorerName) && PlainRows(scored, numbers)
    requires forall i :: 0 <= i < |steps| ==> Printable(steps[i])
    ensures ParseBlocks(PlanLines(scored, steps, scorerName, numbers), number) == Shadows(scored, numbers) + Rereads(steps)
  {
    var gap, section := ["", "---", ""], Section(steps);
    SectionStartsBlock(steps);
    forall step ensures ReadFields(step, gap + section, number) == step {
      GapSetsNothing(step, section, number);
    }
    GapHasNoHeader();
    TitleParses(scorerName);
    SkipNonHeaders(TitleLines(scorerName), RankingTable(scored, numbers) + (gap + section), number);
    RankingTableParses(scored, numbers, gap + section, number);
    SkipNonHeaders(gap, section, number);
    SectionReadsBack(steps, number);
  }

  lemma PlanLinesAreOneLine(
    scored: seq<ScoredStep>, steps: seq<CandidateStep>, scorerName: string, numbers: NumberFormat)
    requires IsOneLine(scorerName) && PlainRows(scored, numbers)
    requires forall i :: 0 <= i < |steps| ==> Printable(steps[i])
    ensures AllOneLine(PlanLines(scored, steps, scorerName, numbers))
  {
    SectionIsOneLine(steps);
    RankingTableIsOneLine(scored, numbers);
    TitleParses(scorerName);
    GapIsOneLine();
    OneLineConcat(["", "---", ""], Section(steps));
    OneLineConcat(RankingTable(scored, numbers), ["", "---", ""] + Section(steps));
    OneLineConcat(TitleLines(scorerName), RankingTable(scored, numbers) + (["", "---", ""] + Section(steps)));
  }

  lemma GapIsOneLine()
    ensures AllOneLine(["", "---", ""])
  {
  }

  lemma OneLineConcat(a: seq<string>, b: seq<string>)
    requires AllOneLine(a) && AllOneLine(b)
    ensures AllOneLine(a + b)
  {
  }

  lemma PlanTextIsItsLines(
    scored: seq<ScoredStep>, stepsById: map<string, CandidateStep>, scorerName: string, numbers: NumberFormat)
    ensures RankedPlanText(scored, stepsById, scorerName, numbers)
         == Unlines(PlanLines(scored, Ranked(Ids(scored), stepsById), scorerName, numbers))
  {
    var steps := Ranked(Ids(scored), stepsById);
    var top, gap, section := TitleLines(scorerName) + RankingTable(scored, numbers), ["", "---", ""], Section(steps);
    assert PlanLines(scored, steps, scorerName, numbers) == top + (gap + section);
    GapText();
    PlanParts(top, gap, section);
    Rejoin(Unlines(top), "\n---\n", "\n", Unlines(section));
  }

  lemma Rejoin(top: string, rule: string, blank: string, section: string)
    ensures top + rule + (blank + section) == top + ((rule + blank) + section)
  {
  }

  lemma PlanParts(top: seq<string>, gap: seq<string>, section: seq<string>)
    ensures Unlines(top + (gap + section)) == Unlines(top) + (Unlines(gap) + Unlines(section))
  {
    UnlinesConcat(top, gap + section);
    UnlinesConcat(gap, section);
  }

  lemma GapText()
    ensures Unlines(["", "---", ""]) == "\n---\n" + "\n"
  {
    UnlinesConcat([""], ["---", ""]);
    UnlinesConcat(["---"], [""]);
    UnlinesOne("");
    UnlinesOne("---");
    assert [""] + ["---", ""] == ["", "---", ""] && ["---"] + [""] == ["---", ""];
  }

  /**
   The whole file is no round trip: each line of the ranking table also starts with `TASK `, so it comes back as
   one more step without fields, before the real ones.
   */
  lemma WholePlanRepeatsEachRankedTask(
    scored: seq<ScoredStep>, stepsById: map<string, CandidateStep>, scorerName: string, numbers: NumberFormat,
    number: NumberParser)
    requires IsOneLine(scorerName) && PlainRows(scored, numbers)
    requires forall id :: id in stepsById ==> Printable(stepsById[id])
    ensures ParseText(RankedPlanText(scored, stepsById, scorerName, numbers), number)
         == Shadows(scored, numbers) + Rereads(Ranked(Ids(scored), stepsById))
  {
    var steps := Ranked(Ids(scored), stepsById);
    RankedArePrintable(Ids(scored), stepsById);
    PlanTextIsItsLines(scored, stepsById, scorerName, numbers);
    PlanLinesAreOneLine(scored, steps, scorerName, numbers);
    TextIsItsLines(PlanLines(scored, steps, scorerName, numbers), number);
    PlanLinesParse(scored, steps, scorerName, numbers, number);
  }

  lemma DashLine()
    ensures !IsHeader("---") && FieldOf(TrimStart("---")) == (NoField, [])
  {
    assert TrimStart("---") == "---";
  }

  lemma GapHasNoHeader()
    ensures NoHeaders(["", "---", ""])
  {
    var gap := ["", "---", ""];
    DashLine();
    BlankLine();
    assert gap[1..] == ["---", ""] && gap[1..][1..] == [""] && gap[1..][1..][1..] == [];
  }

  lemma GapSetsNothing(step: CandidateStep, section: seq<string>, number: NumberParser)
    requires StartsBlock(section)
    ensures ReadFields(step, ["", "---", ""] + section, number) == step
  {
    BlankLine();
    DashLine();
    assert ["", "---", ""] + section == [""] + (["---"] + ([""] + section));
    ReadOne(step, "", ["---"] + ([""] + section), number);
    ReadOne(step, "---", [""] + section, number);
    ReadBlankLine(step, section, number);
  }

  // ---- From candidate steps to the ranked plan ----------------------------------------------

  /** `Ord` for strings. */
  predicate StringLe(a: string, b: string) {
    a == [] || (b != [] && (a[0] < b[0] || (a[0] == b[0] && StringLe(a[1..], b[1..]))))
  }

  /** Ascending energy; equal energies by id. */
  predicate RankedBefore(a: ScoredStep, b: ScoredStep) {
    a.energy < b.energy || (a.energy == b.energy && StringLe(a.stepId, b.stepId))
  }

  function InsertScored(sorted: seq<ScoredStep>, x: ScoredStep): seq<ScoredStep> {
    if sorted == [] || RankedBefore(sorted[|sorted| - 1], x) then sorted + [x]
    else InsertScored(sorted[..|sorted| - 1], x) + [sorted[|sorted| - 1]]
  }

  /** What the standard library's sort gives for this order, as any sort would (`RankingIsUnique`). */
  function SortScored(scored: seq<ScoredStep>): seq<ScoredStep> {
    if scored == [] then [] else InsertScored(SortScored(scored[..|scored| - 1]), scored[|scored| - 1])
  }

  type Scorer = CandidateStep -> real

  function ScoreAll(steps: seq<CandidateStep>, scorer: Scorer): seq<ScoredStep> {
    if steps == [] then []
    else
      var last := steps[|steps| - 1];
      ScoreAll(steps[..|steps| - 1], scorer) + [ScoredStep(last.id, scorer(last))]
  }

  /** `collect` into a hash map: of several steps with one id the last stays. */
  function StepsById(steps: seq<CandidateStep>): map<string, CandidateStep> {
    if steps == [] then map[] else StepsById(steps[..|steps| - 1])[steps[|steps| - 1].id := steps[|steps| - 1]]
  }

  lemma {:induction false} StringLeTotal(a: string, b: string)
    ensures StringLe(a, b) || StringLe(b, a)
  {
    if a != [] && b != [] && a[0] == b[0] {
      StringLeTotal(a[1..], b[1..]);
    }
  }

  lemma {:induction false} StringLeTransitive(a: string, b: string, c: string)
    requires StringLe(a, b) && StringLe(b, c)
    ensures StringLe(a, c)
  {
    if a != [] && b != [] && c != [] && a[0] == b[0] == c[0] {
      StringLeTransitive(a[1..], b[1..], c[1..]);
    }
  }

  predicate AllBefore(scored: seq<ScoredStep>, x: ScoredStep) {
    forall i :: 0 <= i < |scored| ==> RankedBefore(scored[i], x)
  }

  predicate InOrder(scored: seq<ScoredStep>) {
    forall i, j :: 0 <= i < j < |scored| ==> RankedBefore(scored[i], scored[j])
  }

  lemma BeforeTransitive(scored: seq<ScoredStep>, x: ScoredStep, y: ScoredStep)
    requires AllBefore(scored, x) && RankedBefore(x, y)
    ensures AllBefore(scored, y)
  {
    forall i | 0 <= i < |scored| ensures RankedBefore(scored[i], y) {
      if scored[i].energy == x.energy == y.energy {
        StringLeTransitive(scored[i].stepId, x.stepId, y.stepId);
      }
    }
  }

  lemma {:induction false} InsertCounts(sorted: seq<ScoredStep>, x: ScoredStep)
    ensures multiset(InsertScored(sorted, x)) == multiset(sorted) + multiset{x}
  {
    if sorted != [] && !RankedBefore(sorted[|sorted| - 1], x) {
      InsertCounts(sorted[..|sorted| - 1], x);
      assert sorted == sorted[..|sorted| - 1] + [sorted[|sorted| - 1]];
    }
  }

  lemma {:induction false} InsertBefore(sorted: seq<ScoredStep>, x: ScoredStep, y: ScoredStep)
    requires AllBefore(sorted, y) && RankedBefore(x, y)
    ensures AllBefore(InsertScored(sorted, x), y)
  {
    if sorted != [] && !RankedBefore(sorted[|sorted| - 1], x) {
      InsertBefore(sorted[..|sorted| - 1], x, y);
    }
  }

  lemma OrderSnoc(front: seq<ScoredStep>, last: ScoredStep)
    requires InOrder(front) && AllBefore(front, last)
    ensures InOrder(front + [last])
  {
  }

  lemma AllBeforeSnoc(front: seq<ScoredStep>, last: ScoredStep, x: ScoredStep)
    requires AllBefore(front, last) && RankedBefore(last, x)
    ensures AllBefore(front + [last], x)
  {
    BeforeTransitive(front, last, x);
  }

  lemma {:induction false} InsertKeepsOrder(sorted: seq<ScoredStep>, x: ScoredStep)
    requires InOrder(sorted)
    ensures InOrder(InsertScored(sorted, x))
  {
    if sorted == [] {
      OrderSnoc([], x);
    } else {
      var front, last := sorted[..|sorted| - 1], sorted[|sorted| - 1];
      assert sorted == front + [last];
      if RankedBefore(last, x) {
        AllBeforeSnoc(front, last, x);
        OrderSnoc(sorted, x);
      } else {
        StringLeTotal(last.stepId, x.stepId);
        InsertKeepsOrder(front, x);
        InsertBefore(front, x, last);
        OrderSnoc(InsertScored(front, x), last);
      }
    }
  }

  ghost predicate IsRankingOf(ranked: seq<ScoredStep>, scored: seq<ScoredStep>) {
    InOrder(ranked) && multiset(ranked) == multiset(scored)
  }

  lemma InsertRanks(ranked: seq<ScoredStep>, scored: seq<ScoredStep>, x: ScoredStep)
    requires IsRankingOf(ranked, scored)
    ensures IsRankingOf(InsertScored(ranked, x), scored + [x])
  {
    InsertKeepsOrder(ranked, x);
    InsertCounts(ranked, x);
  }

  lemma SortSnoc(front: seq<ScoredStep>, x: ScoredStep)
    ensures SortScored(front + [x]) == InsertScored(SortScored(front), x)
  {
    assert (front + [x])[..|front|] == front;
  }

  /** The ranking is in order and ranks every candidate once. */
  lemma {:induction false} SortIsRanking(scored: seq<ScoredStep>)
    ensures IsRankingOf(SortScored(scored), scored)
  {
    if scored != [] {
      var front, x := scored[..|scored| - 1], scored[|scored| - 1];
      assert front + [x] == scored;
      SortIsRanking(front);
      SortRanksNext(front, x);
    }
  }

  lemma SortRanksNext(front: seq<ScoredStep>, x: ScoredStep)
    requires IsRankingOf(SortScored(front), front)
    ensures IsRankingOf(SortScored(front + [x]), front + [x])
  {
    InsertRanks(SortScored(front), front, x);
    SortSnoc(front, x);
  }

  lemma {:induction false} StringLeAntisymmetric(a: string, b: string)
    requires StringLe(a, b) && StringLe(b, a)
    ensures a == b
  {
    if a != [] {
      StringLeAntisymmetric(a[1..], b[1..]);
      assert a == [a[0]] + a[1..] && b == [b[0]] + b[1..];
    }
  }

  lemma SameRank(a: ScoredStep, b: ScoredStep)
    requires RankedBefore(a, b) && RankedBefore(b, a)
    ensures a == b
  {
    StringLeAntisymmetric(a.stepId, b.stepId);
  }

  /** The last of a ranking ranks after every entry there is. */
  lemma LastIsLast(ranked: seq<ScoredStep>, x: ScoredStep)
    requires InOrder(ranked) && x in ranked
    ensures x == ranked[|ranked| - 1] || RankedBefore(x, ranked[|ranked| - 1])
  {
  }

  lemma FrontCounts(a: seq<ScoredStep>)
    requires a != []
    ensures multiset(a[..|a| - 1]) == multiset(a) - multiset{a[|a| - 1]}
  {
    assert a == a[..|a| - 1] + [a[|a| - 1]];
  }

  lemma SameLast(a: seq<ScoredStep>, b: seq<ScoredStep>)
    requires InOrder(a) && InOrder(b) && multiset(a) == multiset(b) && a != [] && b != []
    ensures a[|a| - 1] == b[|b| - 1]
  {
    var x, y := a[|a| - 1], b[|b| - 1];
    assert x in multiset(b) && y in multiset(a);
    LastIsLast(a, y);
    LastIsLast(b, x);
    if x != y {
      SameRank(x, y);
    }
  }

  ghost predicate SameRanking(a: seq<ScoredStep>, b: seq<ScoredStep>) {
    InOrder(a) && InOrder(b) && multiset(a) == multiset(b)
  }

  lemma SameLength(a: seq<ScoredStep>, b: seq<ScoredStep>)
    requires multiset(a) == multiset(b)
    ensures |a| == |b|
  {
    assert |multiset(a)| == |a| && |multiset(b)| == |b|;
  }

  lemma FrontsRankAlike(a: seq<ScoredStep>, b: seq<ScoredStep>)
    requires SameRanking(a, b) && a != [] && b != []
    ensures SameRanking(a[..|a| - 1], b[..|b| - 1]) && a[|a| - 1] == b[|b| - 1]
  {
    SameLast(a, b);
    FrontCounts(a);
    FrontCounts(b);
  }

  lemma FrontAndLast<T>(a: seq<T>, b: seq<T>)
    requires a != [] && b != [] && a[..|a| - 1] == b[..|b| - 1] && a[|a| - 1] == b[|b| - 1]
    ensures a == b
  {
    assert a == a[..|a| - 1] + [a[|a| - 1]] && b == b[..|b| - 1] + [b[|b| - 1]];
  }

  /** There is only one ranking, so any sort gives the same. */
  lemma {:induction false} RankingIsUnique(a: seq<ScoredStep>, b: seq<ScoredStep>)
    requires SameRanking(a, b)
    ensures a == b
    decreases |a|
  {
    SameLength(a, b);
    if a != [] {
      FrontsRankAlike(a, b);
      RankingIsUnique(a[..|a| - 1], b[..|b| - 1]);
      FrontAndLast(a, b);
    }
  }

  /** Each ranked entry with its step. */
  function Looked(scored: seq<ScoredStep>, stepsById: map<string, CandidateStep>): seq<CandidateStep> {
    Ranked(Ids(scored), stepsById)
  }

  lemma LookedSnoc(scored: seq<ScoredStep>, x: ScoredStep, stepsById: map<string, CandidateStep>)
    ensures Looked(scored + [x], stepsById)
         == Looked(scored, stepsById) + if x.stepId in stepsById then [stepsById[x.stepId]] else []
  {
    assert (scored + [x])[..|scored|] == scored;
    var ids := Ids(scored) + [x.stepId];
    assert ids[..|Ids(scored)|] == Ids(scored);
  }

  lemma {:induction false} InsertLooked(sorted: seq<ScoredStep>, x: ScoredStep, stepsById: map<string, CandidateStep>)
    requires x.stepId in stepsById
    ensures multiset(Looked(InsertScored(sorted, x), stepsById))
         == multiset(Looked(sorted, stepsById)) + multiset{stepsById[x.stepId]}
  {
    LookedSnoc(sorted, x, stepsById);
    if sorted != [] && !RankedBefore(sorted[|sorted| - 1], x) {
      var front, last := sorted[..|sorted| - 1], sorted[|sorted| - 1];
      assert sorted == front + [last];
      InsertLooked(front, x, stepsById);
      LookedSnoc(front, last, stepsById);
      LookedSnoc(InsertScored(front, x), last, stepsById);
    }
  }

  predicate DistinctIds(steps: seq<CandidateStep>) {
    forall i, j :: 0 <= i < j < |steps| ==> steps[i].id != steps[j].id
  }

  lemma {:induction false} DistinctLookup(steps: seq<CandidateStep>)
    requires DistinctIds(steps)
    ensures forall i :: 0 <= i < |steps| ==> steps[i].id in StepsById(steps) && StepsById(steps)[steps[i].id] == steps[i]
  {
    if steps != [] {
      var front := steps[..|steps| - 1];
      assert DistinctIds(front);
      DistinctLookup(front);
      forall i | 0 <= i < |steps|
        ensures steps[i].id in StepsById(steps) && StepsById(steps)[steps[i].id] == steps[i]
      {
        if i < |front| {
          assert front[i] == steps[i];
        }
      }
    }
  }

  lemma {:induction false} LookedSorted(steps: seq<CandidateStep>, scorer: Scorer, stepsById: map<string, CandidateStep>)
    requires forall i :: 0 <= i < |steps| ==> steps[i].id in stepsById && stepsById[steps[i].id] == steps[i]
    ensures multiset(Looked(SortScored(ScoreAll(steps, scorer)), stepsById)) == multiset(steps)
  {
    if steps != [] {
      var front, last := steps[..|steps| - 1], steps[|steps| - 1];
      assert steps == front + [last];
      LookedSorted(front, scorer, stepsById);
      var x := ScoredStep(last.id, scorer(last));
      assert ScoreAll(steps, scorer)[..|steps| - 1] == ScoreAll(front, scorer) by {
        ScoreCount(front, scorer);
      }
      InsertLooked(SortScored(ScoreAll(front, scorer)), x, stepsById);
    }
  }

  lemma {:induction false} ScoreCount(steps: seq<CandidateStep>, scorer: Scorer)
    ensures |ScoreAll(steps, scorer)| == |steps|
  {
    if steps != [] {
      ScoreCount(steps[..|steps| - 1], scorer);
    }
  }

  lemma {:induction false} StepsByIdHolds(steps: seq<CandidateStep>)
    ensures forall id :: id in StepsById(steps) ==> StepsById(steps)[id] in steps
  {
    if steps != [] {
      StepsByIdHolds(steps[..|steps| - 1]);
    }
  }

  lemma RankedIds(scored: seq<ScoredStep>, steps: seq<CandidateStep>, scorer: Scorer)
    requires multiset(scored) == multiset(ScoreAll(steps, scorer))
    ensures forall i :: 0 <= i < |scored| ==> exists k :: 0 <= k < |steps| && steps[k].id == scored[i].stepId
  {
    forall i | 0 <= i < |scored| ensures exists k :: 0 <= k < |steps| && steps[k].id == scored[i].stepId {
      assert scored[i] in multiset(scored);
      assert scored[i] in ScoreAll(steps, scorer);
      ScoredHasStep(steps, scorer, scored[i]);
    }
  }

  lemma {:induction false} ScoredHasStep(steps: seq<CandidateStep>, scorer: Scorer, r: ScoredStep)
    requires r in ScoreAll(steps, scorer)
    ensures exists k :: 0 <= k < |steps| && steps[k].id == r.stepId
  {
    if steps != [] {
      var front, last := steps[..|steps| - 1], steps[|steps| - 1];
      if r in ScoreAll(front, scorer) {
        ScoredHasStep(front, scorer, r);
        var k :| 0 <= k < |front| && front[k].id == r.stepId;
        assert steps[k].id == r.stepId;
      } else {
        assert steps[|steps| - 1].id == r.stepId;
      }
    }
  }

  /** The candidates in the order of their ranking. */
  function Tasks(ranked: seq<ScoredStep>, steps: seq<CandidateStep>): seq<CandidateStep> {
    Ranked(Ids(ranked), StepsById(steps))
  }

  /**
   However candidates with distinct ids are ranked under a scorer, in ascending energy and by id for equal energies,
   parsing the task section that is written gives back exactly the candidates, in that order.
   */
  lemma RankedPlanReadsBack(steps: seq<CandidateStep>, scorer: Scorer, ranked: seq<ScoredStep>, number: NumberParser)
    requires DistinctIds(steps) && forall i :: 0 <= i < |steps| ==> Printable(steps[i])
    requires IsRankingOf(ranked, ScoreAll(steps, scorer))
    ensures multiset(Tasks(ranked, steps)) == multiset(steps)
    ensures ParseText(SectionText(Ids(ranked), StepsById(steps)), number) == Rereads(Tasks(ranked, steps))
  {
    var byId := StepsById(steps);
    var order := Ids(ranked);
    SortIsRanking(ScoreAll(steps, scorer));
    RankingIsUnique(ranked, SortScored(ScoreAll(steps, scorer)));
    DistinctLookup(steps);
    LookedSorted(steps, scorer, byId);
    StepsByIdHolds(steps);
    RankedArePrintable(order, byId);
    TaskSectionRoundTrip(order, byId, number);
  }

  /** Numbers are written without a colon, on the line they belong to. */
  ghost predicate PlainNumbers(numbers: NumberFormat) {
    forall r :: IsOneLine(numbers(r)) && ':' !in numbers(r)
  }

  /** What the file `rank_with` writes is read as. */
  lemma RankedFileReadsBack(
    steps: seq<CandidateStep>, scorer: Scorer, ranked: seq<ScoredStep>, scorerName: string, numbers: NumberFormat,
    number: NumberParser)
    requires DistinctIds(steps) && forall i :: 0 <= i < |steps| ==> Printable(steps[i])
    requires IsRankingOf(ranked, ScoreAll(steps, scorer)) && IsOneLine(scorerName) && PlainNumbers(numbers)
    ensures multiset(Tasks(ranked, steps)) == multiset(steps)
    ensures ParseText(RankedPlanText(ranked, StepsById(steps), scorerName, numbers), number)
         == Shadows(ranked, numbers) + Rereads(Tasks(ranked, steps))
  {
    RankedPlanReadsBack(steps, scorer, ranked, number);
    RankedIds(ranked, steps, scorer);
    forall i | 0 <= i < |ranked| ensures PlainRow(ranked[i], numbers) {
      var k :| 0 <= k < |steps| && steps[k].id == ranked[i].stepId;
      FieldIsOneLine(steps[k].id);
    }
    StepsByIdHolds(steps);
    WholePlanRepeatsEachRankedTask(ranked, StepsById(steps), scorerName, numbers, number);
  }

  /**
   `rank_with` up to the file it writes. The result is a ranking of the candidates, and the file is read as the
   shadows of the ranking table followed by each candidate once, in the order of the ranking.
   */
  method RankSteps(steps: seq<CandidateStep>, scorer: Scorer, scorerName: string, numbers: NumberFormat)
    returns (ranked: seq<ScoredStep>, text: string)
    ensures IsRankingOf(ranked, ScoreAll(steps, scorer))
    ensures
      DistinctIds(steps) && (forall i :: 0 <= i < |steps| ==> Printable(steps[i]))
      && IsOneLine(scorerName) && PlainNumbers(numbers) ==>
        && multiset(Tasks(ranked, steps)) == multiset(steps)
        && forall number :: ParseText(text, number) == Shadows(ranked, numbers) + Rereads(Tasks(ranked, steps))
  {
    ranked := SortScored(ScoreAll(steps, scorer));
    SortIsRanking(ScoreAll(steps, scorer));
    text := RenderRankedPlan(ranked, StepsById(steps), scorerName, numbers);
    if DistinctIds(steps) && (forall i :: 0 <= i < |steps| ==> Printable(steps[i]))
      && IsOneLine(scorerName) && PlainNumbers(numbers) {
      forall number ensures ParseText(text, number) == Shadows(ranked, numbers) + Rereads(Tasks(ranked, steps)) {
        RankedFileReadsBack(steps, scorer, ranked, scorerName, numbers, number);
      }
      RankedFileReadsBack(steps, scorer, ranked, scorerName, numbers, _ => None);
    }
  }
}
