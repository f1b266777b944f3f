/**
 The append-only error store (`python-prototype/orrchestrator/retrospect.py`): an index in memory and the text of the log
 it is loaded from. How a record is written as JSON is left open but for `Json`.
 */
module ErrorStores {
  import opened Options
  import opened Text

  datatype Fingerprint = Fingerprint(text: string)

  datatype Record = Record(
    fingerprint: Fingerprint, category: string, rawContext: string, resolved: bool, resolution: Option<string>)

  /** A Python dictionary: the keys in insertion order, and their values. */
  datatype Index = Index(order: seq<Fingerprint>, lists: map<Fingerprint, seq<Record>>)

  const EMPTY := Index([], map[])

  function Records(ix: Index, fp: Fingerprint): seq<Record> {
    if fp in ix.lists then ix.lists[fp] else []
  }

  function Add(ix: Index, r: Record): Index {
    Index(if r.fingerprint in ix.lists then ix.order else ix.order + [r.fingerprint],
          ix.lists[r.fingerprint := Records(ix, r.fingerprint) + [r]])
  }

  function LoadIndex(records: seq<Record>): Index {
    if records == [] then EMPTY else Add(LoadIndex(records[..|records| - 1]), records[|records| - 1])
  }

  // ---- The text of the log ------------------------------------------------------------------

  /** How a record is written, and what is read from a line: `None` when it is blank or does not decode. */
  datatype Codec = Codec(encode: Record -> string, decode: string -> Option<Record>)

  predicate IsBreak(c: char) {
    c == '\n' || c == '\r'
  }

  predicate NoBreak(s: string) {
    forall i :: 0 <= i < |s| ==> !IsBreak(s[i])
  }

  /** Python's `strip` leaves nothing of it. */
  predicate Blank(s: string) {
    forall i :: 0 <= i < |s| ==> IsWhitespace(s[i]) || '\U{1C}' <= s[i] <= '\U{1F}'
  }

  /**
   What JSON guarantees. A record is one line and is read back, also behind blanks. Behind anything else it is not
   read: after a complete value it is extra data, after an unfinished one its own braces do not finish that one, and in
   a string its first quote ends the string where no name can follow.
   */
  ghost predicate Json(c: Codec) {
    && (forall r :: NoBreak(c.encode(r)))
    && (forall r, s :: NoBreak(s) ==> c.decode(s + c.encode(r)) == if Blank(s) then Some(r) else None)
    && (forall s :: Blank(s) ==> c.decode(s) == None)
  }

  /** The lines of a text, and at the end what follows the last line break. */
  function Pieces(text: string): (r: seq<string>)
    ensures r != []
  {
    if text == [] then [[]]
    else
      var rest := Pieces(text[1..]);
      if IsBreak(text[0]) then [[]] + rest else [[text[0]] + rest[0]] + rest[1..]
  }

  /** The lines that a line break ends. */
  function EndedLines(text: string): seq<string> {
    Pieces(text)[..|Pieces(text)| - 1]
  }

  /** What follows the last line break. */
  function Tail(text: string): string {
    Pieces(text)[|Pieces(text)| - 1]
  }

  function Read(c: Codec, line: string): seq<Record> {
    if c.decode(line).Some? then [c.decode(line).value] else []
  }

  function ReadAll(c: Codec, lines: seq<string>): seq<Record> {
    if lines == [] then [] else ReadAll(c, lines[..|lines| - 1]) + Read(c, lines[|lines| - 1])
  }

  /** The records a load finds. */
  function RecordsOf(c: Codec, text: string): seq<Record> {
    ReadAll(c, Pieces(text))
  }

  function Reload(c: Codec, text: string): Index {
    LoadIndex(RecordsOf(c, text))
  }

  /** The file is empty, or ends in a line break but for blanks. */
  predicate EndsClean(text: string) {
    Blank(Tail(text))
  }

  /** One more record at the end of the file. */
  function Logged(c: Codec, text: string, r: Record): string {
    text + c.encode(r) + "\n"
  }

  lemma {:induction false} PiecesOfMore(text: string, line: string)
    requires NoBreak(line)
    ensures Pieces(text + line) == EndedLines(text) + [Tail(text) + line]
  {
    if text == [] {
      assert text + line == line;
      PiecesOfLine(line);
    } else {
      assert (text + line)[1..] == text[1..] + line;
      PiecesOfMore(text[1..], line);
      PiecesCons(text[0], text[1..], line);
      assert [text[0]] + text[1..] == text;
    }
  }

  /** The first character goes to the first piece, whether more follows at the end or not. */
  lemma PiecesCons(first: char, rest: string, line: string)
    requires Pieces(rest + line) == EndedLines(rest) + [Tail(rest) + line]
    ensures Pieces([first] + rest + line) == EndedLines([first] + rest) + [Tail([first] + rest) + line]
  {
    PiecesOfCons(first, rest);
    PiecesOfCons(first, rest + line);
    assert [first] + rest + line == [first] + (rest + line);
    LastGrows(first, Pieces(rest), line);
  }

  function WithFirst(first: char, pieces: seq<string>): seq<string>
    requires pieces != []
  {
    if IsBreak(first) then [[]] + pieces else [[first] + pieces[0]] + pieces[1..]
  }

  lemma PiecesOfCons(first: char, rest: string)
    ensures Pieces([first] + rest) == WithFirst(first, Pieces(rest))
  {
    assert ([first] + rest)[1..] == rest;
  }

  /** A first character and a longer last piece do not get in each other's way. */
  lemma LastGrows(first: char, pieces: seq<string>, line: string)
    requires pieces != []
    ensures
      var n, all := |pieces| - 1, WithFirst(first, pieces);
      WithFirst(first, pieces[..n] + [pieces[n] + line]) == all[..|all| - 1] + [all[|all| - 1] + line]
  {
    var n, longer := |pieces| - 1, pieces[|pieces| - 1] + line;
    if IsBreak(first) {
      assert [[]] + (pieces[..n] + [longer]) == ([[]] + pieces)[..n + 1] + [longer];
    } else if n == 0 {
      assert [first] + longer == [first] + pieces[0] + line;
    } else {
      assert (pieces[..n] + [longer])[1..] == pieces[1..n] + [longer];
    }
  }

  lemma {:induction false} PiecesOfLine(line: string)
    requires NoBreak(line)
    ensures Pieces(line) == [line]
  {
    if line != [] {
      PiecesOfLine(line[1..]);
      assert [line[0]] + line[1..] == line;
    }
  }

  lemma {:induction false} PiecesAfter(text: string, c: char)
    requires IsBreak(c)
    ensures Pieces(text + [c]) == Pieces(text) + [[]]
  {
    if text == [] {
      assert text + [c] == [c] && [c][1..] == [];
    } else {
      assert (text + [c])[1..] == text[1..] + [c];
      PiecesAfter(text[1..], c);
    }
  }

  lemma ReadSnoc(c: Codec, lines: seq<string>, line: string)
    ensures ReadAll(c, lines + [line]) == ReadAll(c, lines) + Read(c, line)
  {
    assert (lines + [line])[..|lines|] == lines;
  }

  lemma RecordsAre(c: Codec, text: string)
    ensures RecordsOf(c, text) == ReadAll(c, EndedLines(text)) + Read(c, Tail(text))
  {
    assert Pieces(text) == EndedLines(text) + [Tail(text)];
    ReadSnoc(c, EndedLines(text), Tail(text));
  }

  /** A record added to a file that does not end clean is lost, and the last line with it. */
  lemma RecordsAfterWrite(c: Codec, text: string, r: Record)
    requires Json(c)
    ensures EndsClean(Logged(c, text, r))
    ensures RecordsOf(c, Logged(c, text, r)) == ReadAll(c, EndedLines(text)) + if EndsClean(text) then [r] else []
    ensures EndsClean(text) ==> RecordsOf(c, text) == ReadAll(c, EndedLines(text))
  {
    var joined := Tail(text) + c.encode(r);
    PiecesOfLogged(text, c.encode(r));
    ReadSnoc(c, EndedLines(text), joined);
    ReadJoined(c, text, r);
    RecordsAre(c, Logged(c, text, r));
    RecordsAre(c, text);
  }

  lemma PiecesOfLogged(text: string, line: string)
    requires NoBreak(line)
    ensures EndedLines(text + line + "\n") == EndedLines(text) + [Tail(text) + line] && Tail(text + line + "\n") == []
  {
    PiecesOfMore(text, line);
    PiecesAfter(text + line, '\n');
  }

  /** What is read from an empty line, from the last line, and from the last line with a record behind it. */
  lemma ReadJoined(c: Codec, text: string, r: Record)
    requires Json(c)
    ensures Blank([]) && Read(c, []) == []
    ensures Read(c, Tail(text) + c.encode(r)) == if EndsClean(text) then [r] else []
    ensures EndsClean(text) ==> Read(c, Tail(text)) == []
  {
    TailHasNoBreak(text);
    assert Blank([]);
  }

  lemma {:induction false} TailHasNoBreak(text: string)
    ensures forall i :: 0 <= i < |Pieces(text)| ==> NoBreak(Pieces(text)[i])
    ensures NoBreak(Tail(text))
  {
    if text != [] {
      TailHasNoBreak(text[1..]);
    }
  }

  /** A line feed or a carriage return ends a line, and any other character makes it longer. */
  lemma LineEndsExactlyAt(text: string, c: char)
    ensures Pieces(text + [c])
         == if c == '\n' || c == '\r' then Pieces(text) + [[]] else EndedLines(text) + [Tail(text) + [c]]
  {
    if IsBreak(c) {
      PiecesAfter(text, c);
    } else {
      PiecesOfMore(text, [c]);
    }
  }

  /** What `strip` takes for a blank beside Unicode white space: the four separators. */
  lemma BlankExactlyWhen(s: string)
    ensures Blank(s) <==> forall i :: 0 <= i < |s| ==> IsWhitespace(s[i]) || s[i] as int in {0x1C, 0x1D, 0x1E, 0x1F}
  {
  }

  function Resolve(r: Record, resolution: string): Record {
    if r.resolved then r else r.(resolved := true, resolution := Some(resolution))
  }

  function ResolveAll(records: seq<Record>, resolution: string): seq<Record> {
    if records == [] then []
    else ResolveAll(records[..|records| - 1], resolution) + [Resolve(records[|records| - 1], resolution)]
  }

  function Marker(fp: Fingerprint, category: string, resolution: string): Record {
    Record(fp, category, "[RESOLVED] " + resolution, true, Some(resolution))
  }

  datatype State = State(index: Index, log: string)

  datatype Op = Append(record: Record) | MarkResolved(fp: Fingerprint, resolution: string)

  function Step(c: Codec, s: State, op: Op): State {
    match op
    case Append(r) => State(Add(s.index, r), Logged(c, s.log, r))
    case MarkResolved(fp, resolution) =>
      var records := Records(s.index, fp);
      if records == [] then s
      else State(s.index.(lists := s.index.lists[fp := ResolveAll(records, resolution)]),
                 Logged(c, s.log, Marker(fp, records[0].category, resolution)))
  }

  /** A store loaded from this text, after these calls. */
  function Run(c: Codec, text: string, ops: seq<Op>): State {
    if ops == [] then State(Reload(c, text), text)
    else Step(c, Run(c, text, ops[..|ops| - 1]), ops[|ops| - 1])
  }

  // ---- What is asked of an index ------------------------------------------------------------

  predicate AnyResolved(records: seq<Record>) {
    records != [] && (records[|records| - 1].resolved || AnyResolved(records[..|records| - 1]))
  }

  /** The newest non-empty resolution. */
  function NewestResolution(records: seq<Record>): Option<string> {
    if records == [] then None
    else
      var r := records[|records| - 1];
      if r.resolved && r.resolution.Some? && r.resolution.value != [] then r.resolution
      else NewestResolution(records[..|records| - 1])
  }

  function UnresolvedAmong(ix: Index, order: seq<Fingerprint>): seq<Fingerprint> {
    if order == [] then []
    else
      var fp := order[|order| - 1];
      UnresolvedAmong(ix, order[..|order| - 1]) + if AnyResolved(Records(ix, fp)) then [] else [fp]
  }

  function Unresolved(ix: Index): seq<Fingerprint> {
    UnresolvedAmong(ix, ix.order)
  }

  function Occurrences(ix: Index, order: seq<Fingerprint>): nat {
    if order == [] then 0 else Occurrences(ix, order[..|order| - 1]) + |Records(ix, order[|order| - 1])|
  }

  datatype Stats = Stats(total: nat, unique: nat, resolved: nat, unresolved: int)

  function StatsOf(ix: Index): Stats {
    var resolved := |ix.order| - |Unresolved(ix)|;
    UnresolvedIsShorter(ix, ix.order);
    Stats(Occurrences(ix, ix.order), |ix.order|, resolved, |ix.order| - resolved)
  }

  lemma {:induction false} UnresolvedIsShorter(ix: Index, order: seq<Fingerprint>)
    ensures |UnresolvedAmong(ix, order)| <= |order|
  {
    if order != [] {
      UnresolvedIsShorter(ix, order[..|order| - 1]);
    }
  }

  // ---- The store ----------------------------------------------------------------------------

  class ErrorStore {
    const codec: Codec
    var index: Index
    var loaded: bool
    /** The text of `errors.jsonl`; an absent file has none. */
    var log: string

    constructor (codec: Codec, onDisk: string)
      ensures Valid() && this.codec == codec && log == onDisk && Contents() == Run(codec, onDisk, [])
    {
      this.codec := codec;
      index, loaded, log := EMPTY, false, onDisk;
    }

    predicate Valid()
      reads this
    {
      !loaded ==> index == EMPTY
    }

    /** What the store stands for, loaded or not. */
    function Contents(): State
      reads this
    {
      State(if loaded then index else Reload(codec, log), log)
    }

    method Remember(r: Record)
      modifies this`index
      ensures index == Add(old(index), r)
    {
      if r.fingerprint !in index.lists {
        index := Index(index.order + [r.fingerprint], index.lists[r.fingerprint := []]);
      }
      index := index.(lists := index.lists[r.fingerprint := index.lists[r.fingerprint] + [r]]);
      assert index.lists == Add(old(index), r).lists;
    }

    method TakeLine(line: string)
      modifies this`index
      ensures
        var r := codec.decode(line);
        index == if r.Some? then Add(old(index), r.value) else old(index)
    {
      var record := codec.decode(line);
      if record.Some? {
        Remember(record.value);
      }
    }

    method Load()
      requires Valid()
      modifies this`index, this`loaded
      ensures Valid() && loaded && Contents() == old(Contents())
    {
      if loaded {
        return;
      }
      loaded := true;
      var lines := Pieces(log);
      var i := 0;
      while i < |lines|
        invariant i <= |lines| && loaded && log == old(log)
        invariant index == LoadIndex(ReadAll(codec, lines[..i]))
      {
        LoadLine(codec, lines, i);
        TakeLine(lines[i]);
        i := i + 1;
      }
      assert lines[..i] == lines;
    }

    method Append(record: Record)
      requires Valid()
      modifies this
      ensures Valid() && Contents() == Step(codec, old(Contents()), Op.Append(record))
    {
      Load();
      log := log + codec.encode(record) + "\n";
      Remember(record);
    }

    method HasFingerprint(fp: Fingerprint) returns (known: bool)
      requires Valid()
      modifies this`index, this`loaded
      ensures Valid() && Contents() == old(Contents())
      ensures known == (fp in Contents().index.lists)
    {
      Load();
      known := fp in index.lists;
    }

    method GetResolution(fp: Fingerprint) returns (r: Option<string>)
      requires Valid()
      modifies this`index, this`loaded
      ensures Valid() && Contents() == old(Contents())
      ensures r == NewestResolution(Records(Contents().index, fp))
    {
      Load();
      var records := Records(index, fp);
      var i := |records|;
      assert records[..i] == records;
      while i > 0
        invariant 0 <= i <= |records|
        invariant NewestResolution(records[..i]) == NewestResolution(records)
      {
        i := i - 1;
        assert records[..i + 1][..i] == records[..i];
        var record := records[i];
        if record.resolved && record.resolution.Some? && record.resolution.value != [] {
          return record.resolution;
        }
      }
      r := None;
    }

    method MarkResolved(fp: Fingerprint, resolution: string)
      requires Valid()
      modifies this
      ensures Valid() && Contents() == Step(codec, old(Contents()), Op.MarkResolved(fp, resolution))
    {
      Load();
      var records := Records(index, fp);
      var i := 0;
      var changed: seq<Record> := [];
      while i < |records|
        invariant i <= |records|
        invariant changed == ResolveAll(records[..i], resolution)
      {
        assert records[..i + 1][..i] == records[..i];
        if !records[i].resolved {
          changed := changed + [records[i].(resolved := true, resolution := Some(resolution))];
        } else {
          changed := changed + [records[i]];
        }
        i := i + 1;
      }
      assert records[..i] == records;
      if records != [] {
        index := index.(lists := index.lists[fp := changed]);
        log := log + codec.encode(Marker(fp, records[0].category, resolution)) + "\n";
      }
    }

    method UnresolvedFingerprints() returns (out: seq<Fingerprint>)
      requires Valid()
      modifies this`index, this`loaded
      ensures Valid() && Contents() == old(Contents())
      ensures out == Unresolved(Contents().index)
    {
      Load();
      out := [];
      var i := 0;
      while i < |index.order|
        invariant i <= |index.order|
        invariant out == UnresolvedAmong(index, index.order[..i])
      {
        assert index.order[..i + 1][..i] == index.order[..i];
        if !AnyResolved(Records(index, index.order[i])) {
          out := out + [index.order[i]];
        }
        i := i + 1;
      }
      assert index.order[..i] == index.order;
    }

    method GetStats() returns (stats: Stats)
      requires Valid()
      modifies this`index, this`loaded
      ensures Valid() && Contents() == old(Contents())
      ensures stats == StatsOf(Contents().index)
    {
      Load();
      var total, resolved: nat, i := 0, 0, 0;
      while i < |index.order|
        invariant i <= |index.order|
        invariant total == Occurrences(index, index.order[..i])
        invariant resolved == i - |UnresolvedAmong(index, index.order[..i])|
      {
        assert index.order[..i + 1][..i] == index.order[..i];
        total := total + |Records(index, index.order[i])|;
        if AnyResolved(Records(index, index.order[i])) {
          resolved := resolved + 1;
        }
        i := i + 1;
      }
      assert index.order[..i] == index.order;
      stats := Stats(total, |index.order|, resolved, |index.order| - resolved);
    }
  }

  // ---- The live index against a fresh reload ------------------------------------------------

  ghost predicate WellFormed(ix: Index) {
    && (forall fp :: fp in ix.order <==> fp in ix.lists)
    && (forall fp :: fp in ix.lists ==> ix.lists[fp] != [])
    && (forall i, j :: 0 <= i < j < |ix.order| ==> ix.order[i] != ix.order[j])
  }

  /** Same fingerprints in the same order, and the same ones resolved. */
  ghost predicate Agree(a: Index, b: Index) {
    && a.order == b.order
    && forall fp :: AnyResolved(Records(a, fp)) == AnyResolved(Records(b, fp))
  }

  lemma AddKeepsWellFormed(ix: Index, r: Record)
    requires WellFormed(ix)
    ensures WellFormed(Add(ix, r))
  {
  }

  lemma {:induction false} LoadIsWellFormed(records: seq<Record>)
    ensures WellFormed(LoadIndex(records))
  {
    if records != [] {
      LoadIsWellFormed(records[..|records| - 1]);
      AddKeepsWellFormed(LoadIndex(records[..|records| - 1]), records[|records| - 1]);
    }
  }

  lemma {:induction false} ResolveAllResolves(records: seq<Record>, resolution: string)
    ensures |ResolveAll(records, resolution)| == |records|
    ensures records != [] ==> AnyResolved(ResolveAll(records, resolution))
  {
    if records != [] {
      ResolveAllResolves(records[..|records| - 1], resolution);
    }
  }

  lemma LoadOneMore(records: seq<Record>, r: Record)
    ensures LoadIndex(records + [r]) == Add(LoadIndex(records), r)
  {
    assert (records + [r])[..|records|] == records;
  }

  lemma LoadLine(c: Codec, lines: seq<string>, i: nat)
    requires i < |lines|
    ensures
      var before, r := LoadIndex(ReadAll(c, lines[..i])), c.decode(lines[i]);
      LoadIndex(ReadAll(c, lines[..i + 1])) == if r.Some? then Add(before, r.value) else before
  {
    assert lines[..i + 1] == lines[..i] + [lines[i]];
    ReadSnoc(c, lines[..i], lines[i]);
    var r := c.decode(lines[i]);
    if r.Some? {
      LoadOneMore(ReadAll(c, lines[..i]), r.value);
    } else {
      assert ReadAll(c, lines[..i]) + [] == ReadAll(c, lines[..i]);
    }
  }

  /** A record added to a file that ends clean is one more record of the reload. */
  lemma ReloadOneMore(c: Codec, text: string, r: Record)
    requires Json(c) && EndsClean(text)
    ensures Reload(c, Logged(c, text, r)) == Add(Reload(c, text), r) && EndsClean(Logged(c, text, r))
  {
    RecordsAfterWrite(c, text, r);
    LoadOneMore(RecordsOf(c, text), r);
  }

  lemma AddedRecords(ix: Index, r: Record, fp: Fingerprint)
    ensures Records(Add(ix, r), fp) == Records(ix, fp) + if fp == r.fingerprint then [r] else []
  {
  }

  lemma ResolvedSnoc(records: seq<Record>, r: Record)
    ensures AnyResolved(records + [r]) == (r.resolved || AnyResolved(records))
  {
    assert (records + [r])[..|records|] == records;
  }

  lemma ResolvedAfterAdd(ix: Index, r: Record, fp: Fingerprint)
    ensures AnyResolved(Records(Add(ix, r), fp)) == (AnyResolved(Records(ix, fp)) || (fp == r.fingerprint && r.resolved))
  {
    AddedRecords(ix, r, fp);
    if fp == r.fingerprint {
      ResolvedSnoc(Records(ix, fp), r);
    }
  }

  lemma AddKeepsAgreement(a: Index, b: Index, r: Record)
    requires WellFormed(a) && WellFormed(b) && Agree(a, b)
    ensures Agree(Add(a, r), Add(b, r))
  {
    assert Add(a, r).order == Add(b, r).order by {
      assert r.fingerprint in a.lists <==> r.fingerprint in a.order;
      assert r.fingerprint in b.lists <==> r.fingerprint in b.order;
    }
    forall fp ensures AnyResolved(Records(Add(a, r), fp)) == AnyResolved(Records(Add(b, r), fp)) {
      ResolvedAfterAdd(a, r, fp);
      ResolvedAfterAdd(b, r, fp);
      assert AnyResolved(Records(a, fp)) == AnyResolved(Records(b, fp));
    }
  }

  lemma MarkKeepsAgreement(c: Codec, s: State, fp: Fingerprint, resolution: string)
    requires Json(c) && EndsClean(s.log)
    requires WellFormed(s.index) && WellFormed(Reload(c, s.log)) && Agree(s.index, Reload(c, s.log))
    requires fp in s.index.lists
    ensures
      var t := Step(c, s, MarkResolved(fp, resolution));
      WellFormed(t.index) && Agree(t.index, Reload(c, t.log))
  {
    var marker := Marker(fp, s.index.lists[fp][0].category, resolution);
    ReloadOneMore(c, s.log, marker);
    MarkAgrees(s.index, Reload(c, s.log), fp, resolution, marker);
  }

  lemma MarkAgrees(live: Index, reload: Index, fp: Fingerprint, resolution: string, marker: Record)
    requires WellFormed(live) && WellFormed(reload) && Agree(live, reload) && fp in live.lists
    requires marker.fingerprint == fp && marker.resolved
    ensures
      var marked := live.(lists := live.lists[fp := ResolveAll(live.lists[fp], resolution)]);
      WellFormed(marked) && Agree(marked, Add(reload, marker))
  {
    var marked := live.(lists := live.lists[fp := ResolveAll(live.lists[fp], resolution)]);
    ResolveAllResolves(live.lists[fp], resolution);
    assert fp in live.order && fp in reload.lists;
    forall other ensures AnyResolved(Records(marked, other)) == AnyResolved(Records(Add(reload, marker), other)) {
      AddedRecords(reload, marker, other);
      ResolvedSnoc(Records(reload, other), marker);
      assert AnyResolved(Records(live, other)) == AnyResolved(Records(reload, other));
    }
  }

  /** On a file that ends clean, live index and log agree after any calls, although markers are only in the log. */
  lemma {:induction false} LiveAgreesWithReload(c: Codec, text: string, ops: seq<Op>)
    requires Json(c) && EndsClean(text)
    ensures
      var s := Run(c, text, ops);
      EndsClean(s.log) && WellFormed(s.index) && WellFormed(Reload(c, s.log)) && Agree(s.index, Reload(c, s.log))
  {
    if ops == [] {
      LoadIsWellFormed(RecordsOf(c, text));
    } else {
      var front, op := ops[..|ops| - 1], ops[|ops| - 1];
      LiveAgreesWithReload(c, text, front);
      var s := Run(c, text, front);
      LoadIsWellFormed(RecordsOf(c, Step(c, s, op).log));
      match op {
        case Append(r) =>
          AddKeepsAgreement(s.index, Reload(c, s.log), r);
          AddKeepsWellFormed(s.index, r);
          ReloadOneMore(c, s.log, r);
        case MarkResolved(fp, resolution) =>
          if fp in s.index.lists {
            MarkKeepsAgreement(c, s, fp, resolution);
            ReloadOneMore(c, s.log, Marker(fp, s.index.lists[fp][0].category, resolution));
          }
      }
    }
  }

  lemma {:induction false} SameUnresolved(a: Index, b: Index, order: seq<Fingerprint>)
    requires forall fp :: AnyResolved(Records(a, fp)) == AnyResolved(Records(b, fp))
    ensures UnresolvedAmong(a, order) == UnresolvedAmong(b, order)
  {
    if order != [] {
      SameUnresolved(a, b, order[..|order| - 1]);
      assert AnyResolved(Records(a, order[|order| - 1])) == AnyResolved(Records(b, order[|order| - 1]));
    }
  }

  /** The call writes a marker. */
  predicate Marks(s: State, op: Op) {
    op.MarkResolved? && Records(s.index, op.fp) != []
  }

  function MarkersWritten(c: Codec, text: string, ops: seq<Op>): nat {
    if ops == [] then 0
    else
      var front, op := ops[..|ops| - 1], ops[|ops| - 1];
      MarkersWritten(c, text, front) + if Marks(Run(c, text, front), op) then 1 else 0
  }

  /** No call has written anything to the log. */
  predicate WritesNothing(c: Codec, text: string, ops: seq<Op>) {
    ops == [] ||
    var front, op := ops[..|ops| - 1], ops[|ops| - 1];
    WritesNothing(c, text, front) && op.MarkResolved? && !Marks(Run(c, text, front), op)
  }

  lemma {:induction false} OccurrencesElsewhere(a: Index, b: Index, order: seq<Fingerprint>, fp: Fingerprint)
    requires fp !in order && forall other :: other != fp ==> Records(a, other) == Records(b, other)
    ensures Occurrences(a, order) == Occurrences(b, order)
  {
    if order != [] {
      assert order[|order| - 1] in order;
      OccurrencesElsewhere(a, b, order[..|order| - 1], fp);
    }
  }

  /** Changing the list of one fingerprint changes the total by as much. */
  lemma {:induction false} OccurrencesOfChange(a: Index, b: Index, order: seq<Fingerprint>, fp: Fingerprint)
    requires fp in order && forall i, j :: 0 <= i < j < |order| ==> order[i] != order[j]
    requires forall other :: other != fp ==> Records(a, other) == Records(b, other)
    ensures Occurrences(b, order) == Occurrences(a, order) + |Records(b, fp)| - |Records(a, fp)|
  {
    var front, last := order[..|order| - 1], order[|order| - 1];
    if last == fp {
      assert fp !in front;
      OccurrencesElsewhere(a, b, front, fp);
    } else {
      assert fp in front;
      OccurrencesOfChange(a, b, front, fp);
    }
  }

  lemma TotalAfterAdd(ix: Index, r: Record)
    requires WellFormed(ix)
    ensures Occurrences(Add(ix, r), Add(ix, r).order) == Occurrences(ix, ix.order) + 1
  {
    var fp, more := r.fingerprint, Add(ix, r);
    AddedRecords(ix, r, fp);
    if fp in ix.lists {
      assert fp in ix.order;
      OccurrencesOfChange(ix, more, ix.order, fp);
    } else {
      assert more.order[..|ix.order|] == ix.order;
      OccurrencesElsewhere(ix, more, ix.order, fp);
    }
  }

  function Total(ix: Index): nat {
    Occurrences(ix, ix.order)
  }

  lemma {:induction false} TotalOfLoad(records: seq<Record>)
    ensures Total(LoadIndex(records)) == |records|
  {
    if records != [] {
      var front := records[..|records| - 1];
      TotalOfLoad(front);
      LoadIsWellFormed(front);
      TotalAfterAdd(LoadIndex(front), records[|records| - 1]);
    }
  }

  lemma TotalAfterMark(c: Codec, s: State, fp: Fingerprint, resolution: string)
    requires WellFormed(s.index)
    ensures Total(Step(c, s, MarkResolved(fp, resolution)).index) == Total(s.index)
  {
    if Records(s.index, fp) != [] {
      ResolveAllResolves(s.index.lists[fp], resolution);
      assert fp in s.index.order;
      OccurrencesOfChange(s.index, Step(c, s, MarkResolved(fp, resolution)).index, s.index.order, fp);
    }
  }

  lemma MarkKeepsWellFormed(c: Codec, s: State, fp: Fingerprint, resolution: string)
    requires WellFormed(s.index)
    ensures WellFormed(Step(c, s, MarkResolved(fp, resolution)).index)
  {
    ResolveAllResolves(Records(s.index, fp), resolution);
  }

  /** What a call adds to the live total. */
  lemma LiveTotalAfter(c: Codec, s: State, op: Op)
    requires WellFormed(s.index)
    ensures
      var t := Step(c, s, op);
      WellFormed(t.index) && Total(t.index) == Total(s.index) + if op.Append? then 1 else 0
  {
    match op
    case Append(r) =>
      AddKeepsWellFormed(s.index, r);
      TotalAfterAdd(s.index, r);
    case MarkResolved(fp, resolution) =>
      MarkKeepsWellFormed(c, s, fp, resolution);
      TotalAfterMark(c, s, fp, resolution);
  }

  /** What a write adds to the total of a reload: one record, or less than nothing. */
  lemma ReloadTotalAfter(c: Codec, text: string, r: Record)
    requires Json(c)
    ensures EndsClean(Logged(c, text, r))
    ensures EndsClean(text) ==> Total(Reload(c, Logged(c, text, r))) == Total(Reload(c, text)) + 1
    ensures !EndsClean(text) ==> Total(Reload(c, Logged(c, text, r))) <= Total(Reload(c, text))
  {
    RecordsAfterWrite(c, text, r);
    RecordsAre(c, text);
    TotalOfLoad(RecordsOf(c, text));
    TotalOfLoad(RecordsOf(c, Logged(c, text, r)));
  }

  /** The record a call writes, if it writes one. */
  function WrittenBy(s: State, op: Op): Option<Record> {
    match op
    case Append(r) => Some(r)
    case MarkResolved(fp, resolution) =>
      if Marks(s, op) then Some(Marker(fp, Records(s.index, fp)[0].category, resolution)) else None
  }

  lemma StepLogs(c: Codec, s: State, op: Op)
    ensures
      var r := WrittenBy(s, op);
      if r.Some? then Step(c, s, op).log == Logged(c, s.log, r.value) else Step(c, s, op) == s
  {
  }

  /** How the total of a reload compares to the live one: exactly the markers more, or less than that. */
  ghost predicate TotalsCompare(c: Codec, text: string, s: State, markers: nat, written: bool) {
    if EndsClean(text) then EndsClean(s.log) && Total(Reload(c, s.log)) == Total(s.index) + markers
    else if written then EndsClean(s.log) && Total(Reload(c, s.log)) < Total(s.index) + markers
    else s == State(Reload(c, text), text) && markers == 0
  }

  lemma TotalsCompareNext(c: Codec, text: string, s: State, markers: nat, written: bool, op: Op)
    requires Json(c) && WellFormed(s.index) && TotalsCompare(c, text, s, markers, written)
    ensures
      TotalsCompare(c, text, Step(c, s, op), markers + if Marks(s, op) then 1 else 0, written || WrittenBy(s, op).Some?)
  {
    LiveTotalAfter(c, s, op);
    StepLogs(c, s, op);
    if WrittenBy(s, op).Some? {
      ReloadTotalAfter(c, s.log, WrittenBy(s, op).value);
    }
  }

  lemma {:induction false} TotalsAlways(c: Codec, text: string, ops: seq<Op>)
    requires Json(c)
    ensures WellFormed(Run(c, text, ops).index)
    ensures TotalsCompare(c, text, Run(c, text, ops), MarkersWritten(c, text, ops), !WritesNothing(c, text, ops))
  {
    if ops == [] {
      LoadIsWellFormed(RecordsOf(c, text));
    } else {
      var front, op := ops[..|ops| - 1], ops[|ops| - 1];
      var s := Run(c, text, front);
      TotalsAlways(c, text, front);
      LiveTotalAfter(c, s, op);
      TotalsCompareNext(c, text, s, MarkersWritten(c, text, front), !WritesNothing(c, text, front), op);
    }
  }

  /** What callers ask is answered alike, but for the total, in which a reload counts the markers too. */
  ghost predicate SameAnswers(live: Index, reload: Index, markers: nat) {
    && (forall fp :: fp in live.lists <==> fp in reload.lists)
    && Unresolved(live) == Unresolved(reload)
    && StatsOf(reload) == StatsOf(live).(total := StatsOf(live).total + markers)
  }

  /**
   The live index and a reload give the same answers: the known fingerprints, the unresolved ones and their order, and
   every statistic but the total. They do so after any calls exactly when the file ended clean at first or nothing was
   written: the first record written after an unfinished line is lost together with that line.
   */
  lemma AnswersAgree(c: Codec, text: string, ops: seq<Op>)
    requires Json(c)
    ensures
      var s := Run(c, text, ops);
      SameAnswers(s.index, Reload(c, s.log), MarkersWritten(c, text, ops)) <==>
      EndsClean(text) || WritesNothing(c, text, ops)
  {
    TotalsAlways(c, text, ops);
    if EndsClean(text) {
      AnswersAgreeOnCleanFile(c, text, ops);
    }
  }

  lemma AnswersAgreeOnCleanFile(c: Codec, text: string, ops: seq<Op>)
    requires Json(c) && EndsClean(text)
    ensures
      var s := Run(c, text, ops);
      SameAnswers(s.index, Reload(c, s.log), MarkersWritten(c, text, ops))
  {
    var live, reload := Run(c, text, ops).index, Reload(c, Run(c, text, ops).log);
    LiveAgreesWithReload(c, text, ops);
    TotalsAlways(c, text, ops);
    AgreeingAnswers(live, reload, MarkersWritten(c, text, ops));
  }

  lemma AgreeingAnswers(live: Index, reload: Index, markers: nat)
    requires WellFormed(live) && WellFormed(reload) && Agree(live, reload) && Total(reload) == Total(live) + markers
    ensures SameAnswers(live, reload, markers)
  {
    SameUnresolved(live, reload, live.order);
    forall fp ensures fp in live.lists <==> fp in reload.lists {
      assert fp in live.order <==> fp in live.lists;
      assert fp in reload.order <==> fp in reload.lists;
    }
  }

  /** A log of one record without a line break at the end: after one more the store knows both, a reload neither. */
  lemma UnfinishedLineLosesBoth(c: Codec, a: Record, b: Record)
    requires Json(c)
    ensures
      var s := Run(c, c.encode(a), [Append(b)]);
      && RecordsOf(c, c.encode(a)) == [a] && s.index == LoadIndex([a, b]) && Reload(c, s.log) == EMPTY
  {
    var ops := [Append(b)];
    assert ops[..0] == [];
    OneUnfinishedRecord(c, a);
    RecordsAfterWrite(c, c.encode(a), b);
    LoadOneMore([a], b);
    assert [a] + [b] == [a, b];
  }

  lemma OneUnfinishedRecord(c: Codec, a: Record)
    requires Json(c)
    ensures RecordsOf(c, c.encode(a)) == [a] && EndedLines(c.encode(a)) == [] && !EndsClean(c.encode(a))
  {
    var text := c.encode(a);
    PiecesOfLine(text);
    assert Blank([]) && NoBreak([]);
    assert c.decode([] + c.encode(a)) == Some(a);
    assert [] + text == text;
    ReadSnoc(c, [], text);
    assert [] + [text] == [text];
  }

  // ---- Resolutions --------------------------------------------------------------------------

  ghost predicate SameResolutions(a: Index, b: Index) {
    forall fp :: NewestResolution(Records(a, fp)) == NewestResolution(Records(b, fp))
  }

  /** Going back from the newest record, an unresolved one comes before any that has a resolution. */
  predicate UnresolvedIsNewest(records: seq<Record>) {
    records != [] &&
    var r := records[|records| - 1];
    !r.resolved || ((r.resolution.None? || r.resolution.value == []) && UnresolvedIsNewest(records[..|records| - 1]))
  }

  lemma {:induction false} NewestAfterResolve(records: seq<Record>, resolution: string)
    ensures NewestResolution(ResolveAll(records, resolution))
         == if resolution != [] && UnresolvedIsNewest(records) then Some(resolution) else NewestResolution(records)
  {
    if records != [] {
      var front, last := records[..|records| - 1], records[|records| - 1];
      NewestAfterResolve(front, resolution);
      assert ResolveAll(records, resolution)[..|front|] == ResolveAll(front, resolution) by {
        ResolveAllResolves(front, resolution);
      }
    }
  }

  lemma NewestSnoc(records: seq<Record>, r: Record)
    ensures NewestResolution(records + [r])
         == if r.resolved && r.resolution.Some? && r.resolution.value != [] then r.resolution else NewestResolution(records)
  {
    assert (records + [r])[..|records|] == records;
  }

  lemma AddKeepsResolutions(a: Index, b: Index, r: Record)
    requires SameResolutions(a, b)
    ensures SameResolutions(Add(a, r), Add(b, r))
  {
    forall fp ensures NewestResolution(Records(Add(a, r), fp)) == NewestResolution(Records(Add(b, r), fp)) {
      AddedRecords(a, r, fp);
      AddedRecords(b, r, fp);
      NewestSnoc(Records(a, fp), r);
      NewestSnoc(Records(b, fp), r);
      assert NewestResolution(Records(a, fp)) == NewestResolution(Records(b, fp));
    }
  }

  /** What the next load finds in the complete lines alone. */
  function CompleteLines(c: Codec, text: string): Index {
    LoadIndex(ReadAll(c, EndedLines(text)))
  }

  /**
   From a state where live and reloaded resolutions are the same, appending keeps them so exactly when the file ends
   clean or what is lost, the last line and the new record, tells no resolution that the complete lines do not.
   */
  lemma AppendKeepsResolutions(c: Codec, s: State, r: Record)
    requires Json(c) && SameResolutions(s.index, Reload(c, s.log))
    ensures
      var t := Step(c, s, Append(r));
      SameResolutions(t.index, Reload(c, t.log)) <==>
      EndsClean(s.log) || SameResolutions(CompleteLines(c, s.log), Add(Reload(c, s.log), r))
  {
    AddKeepsResolutions(s.index, Reload(c, s.log), r);
    RecordsAfterWrite(c, s.log, r);
    if EndsClean(s.log) {
      ReloadOneMore(c, s.log, r);
    } else {
      assert ReadAll(c, EndedLines(s.log)) + [] == ReadAll(c, EndedLines(s.log));
      assert Reload(c, Step(c, s, Append(r)).log) == CompleteLines(c, s.log);
      SameAsSame(s.index, Reload(c, s.log), r, CompleteLines(c, s.log));
    }
  }

  lemma SameAsSame(live: Index, reload: Index, r: Record, other: Index)
    requires SameResolutions(Add(live, r), Add(reload, r))
    ensures SameResolutions(Add(live, r), other) <==> SameResolutions(other, Add(reload, r))
  {
    if SameResolutions(Add(live, r), other) {
      forall fp ensures NewestResolution(Records(other, fp)) == NewestResolution(Records(Add(reload, r), fp)) {
        assert NewestResolution(Records(Add(live, r), fp)) == NewestResolution(Records(Add(reload, r), fp));
        assert NewestResolution(Records(Add(live, r), fp)) == NewestResolution(Records(other, fp));
      }
    }
    if SameResolutions(other, Add(reload, r)) {
      forall fp ensures NewestResolution(Records(Add(live, r), fp)) == NewestResolution(Records(other, fp)) {
        assert NewestResolution(Records(Add(live, r), fp)) == NewestResolution(Records(Add(reload, r), fp));
        assert NewestResolution(Records(other, fp)) == NewestResolution(Records(Add(reload, r), fp));
      }
    }
  }

  /** The resolution of a fingerprint once its records are marked. */
  function ResolutionAfter(records: seq<Record>, resolution: string): Option<string> {
    if resolution != [] && UnresolvedIsNewest(records) then Some(resolution) else NewestResolution(records)
  }

  /**
   `get_resolution` is where the two can differ. From a state where they agree, marking a known fingerprint keeps them
   agreeing on a file that ends clean exactly when the resolution is empty, is the current one, or an unresolved record
   is the newest to speak; and on one that does not, exactly when the complete lines alone tell the same of every
   other fingerprint, and of this one what the marked records tell.
   */
  lemma MarkKeepsResolutionsExactlyWhen(c: Codec, s: State, fp: Fingerprint, resolution: string)
    requires Json(c) && Records(s.index, fp) != [] && SameResolutions(s.index, Reload(c, s.log))
    ensures
      var t := Step(c, s, MarkResolved(fp, resolution));
      var records, complete := Records(s.index, fp), CompleteLines(c, s.log);
      SameResolutions(t.index, Reload(c, t.log)) <==>
        if EndsClean(s.log) then
          resolution == [] || NewestResolution(records) == Some(resolution) || UnresolvedIsNewest(records)
        else
          && NewestResolution(Records(complete, fp)) == ResolutionAfter(records, resolution)
          && forall other :: other != fp ==>
               NewestResolution(Records(complete, other)) == NewestResolution(Records(Reload(c, s.log), other))
  {
    var marker := Marker(fp, Records(s.index, fp)[0].category, resolution);
    RecordsAfterWrite(c, s.log, marker);
    var t := Step(c, s, MarkResolved(fp, resolution));
    assert t.index == MarkedIndex(s.index, fp, resolution) && t.log == Logged(c, s.log, marker);
    if EndsClean(s.log) {
      ReloadOneMore(c, s.log, marker);
      MarkedAgainstMarker(s.index, Reload(c, s.log), fp, resolution, marker);
    } else {
      assert ReadAll(c, EndedLines(s.log)) + [] == ReadAll(c, EndedLines(s.log));
      assert Reload(c, t.log) == CompleteLines(c, s.log);
      MarkedAgainst(s.index, Reload(c, s.log), fp, resolution, CompleteLines(c, s.log));
    }
  }

  function MarkedIndex(ix: Index, fp: Fingerprint, resolution: string): Index {
    ix.(lists := ix.lists[fp := ResolveAll(Records(ix, fp), resolution)])
  }

  /** When any index has the resolutions of a marked one. */
  lemma MarkedAgainst(live: Index, reload: Index, fp: Fingerprint, resolution: string, other: Index)
    requires SameResolutions(live, reload)
    ensures
      SameResolutions(MarkedIndex(live, fp, resolution), other) <==>
        && NewestResolution(Records(other, fp)) == ResolutionAfter(Records(live, fp), resolution)
        && forall it :: it != fp ==> NewestResolution(Records(other, it)) == NewestResolution(Records(reload, it))
  {
    var marked := MarkedIndex(live, fp, resolution);
    NewestAfterResolve(Records(live, fp), resolution);
    assert Records(marked, fp) == ResolveAll(Records(live, fp), resolution);
    forall it | it != fp ensures NewestResolution(Records(marked, it)) == NewestResolution(Records(reload, it)) {
      assert Records(marked, it) == Records(live, it);
      assert NewestResolution(Records(live, it)) == NewestResolution(Records(reload, it));
    }
    if SameResolutions(marked, other) {
      assert NewestResolution(Records(marked, fp)) == NewestResolution(Records(other, fp));
      forall it | it != fp ensures NewestResolution(Records(other, it)) == NewestResolution(Records(reload, it)) {
        assert NewestResolution(Records(marked, it)) == NewestResolution(Records(other, it));
      }
    }
  }

  lemma MarkedAgainstMarker(live: Index, reload: Index, fp: Fingerprint, resolution: string, marker: Record)
    requires SameResolutions(live, reload)
    requires marker.fingerprint == fp && marker.resolved && marker.resolution == Some(resolution)
    ensures
      var records := Records(live, fp);
      SameResolutions(MarkedIndex(live, fp, resolution), Add(reload, marker)) <==>
        resolution == [] || NewestResolution(records) == Some(resolution) || UnresolvedIsNewest(records)
  {
    MarkedAgainst(live, reload, fp, resolution, Add(reload, marker));
    AddedRecords(reload, marker, fp);
    NewestSnoc(Records(reload, fp), marker);
    assert NewestResolution(Records(live, fp)) == NewestResolution(Records(reload, fp));
    forall it | it != fp ensures Records(Add(reload, marker), it) == Records(reload, it) {
      AddedRecords(reload, marker, it);
    }
  }

  /** One error resolved as "a" and marked again as "b": the live store still answers "a", a reload "b". */
  lemma MarkingTwiceDisagrees(c: Codec, r: Record)
    requires Json(c) && r.resolved && r.resolution == Some("a")
    ensures
      var s := Run(c, Logged(c, [], r), [MarkResolved(r.fingerprint, "b")]);
      && NewestResolution(Records(s.index, r.fingerprint)) == Some("a")
      && NewestResolution(Records(Reload(c, s.log), r.fingerprint)) == Some("b")
  {
    var fp, text, ops := r.fingerprint, Logged(c, [], r), [MarkResolved(r.fingerprint, "b")];
    assert ops[..0] == [];
    assert Pieces([]) == [[]] && EndedLines([]) == [];
    RecordsAfterWrite(c, [], r);
    assert RecordsOf(c, text) == [r];
    LoadOneMore([], r);
    assert [] + [r] == [r];
    AddedRecords(EMPTY, r, fp);
    var index, marker := LoadIndex([r]), Marker(fp, r.category, "b");
    assert Records(index, fp) == [r] && NewestResolution([r]) == Some("a");
    NewestAfterResolve([r], "b");
    ReloadOneMore(c, text, marker);
    AddedRecords(index, marker, fp);
    NewestSnoc([r], marker);
  }

  // ---- What the answers are -----------------------------------------------------------------

  /** The fingerprints with no resolved record, and the ones with some. */
  ghost function NeverResolved(ix: Index): set<Fingerprint> {
    set fp | fp in ix.lists && forall r :: r in ix.lists[fp] ==> !r.resolved
  }

  ghost function OnceResolved(ix: Index): set<Fingerprint> {
    set fp | fp in ix.lists && exists r :: r in ix.lists[fp] && r.resolved
  }

  /** `b` keeps the order of `a`. */
  ghost predicate SameOrder(a: seq<Fingerprint>, b: seq<Fingerprint>) {
    forall i, j :: 0 <= i < j < |b| ==> Precedes(a, b[i], b[j])
  }

  ghost predicate Precedes(a: seq<Fingerprint>, x: Fingerprint, y: Fingerprint) {
    exists k, l :: 0 <= k < l < |a| && a[k] == x && a[l] == y
  }

  lemma {:induction false} AnyResolvedIs(records: seq<Record>)
    ensures AnyResolved(records) <==> exists r :: r in records && r.resolved
  {
    if records != [] {
      var front, last := records[..|records| - 1], records[|records| - 1];
      AnyResolvedIs(front);
      assert records == front + [last];
    }
  }

  lemma {:induction false} ListedAmong(ix: Index, order: seq<Fingerprint>)
    ensures forall fp :: fp in UnresolvedAmong(ix, order) <==> fp in order && !AnyResolved(Records(ix, fp))
  {
    if order != [] {
      ListedAmong(ix, order[..|order| - 1]);
      assert order == order[..|order| - 1] + [order[|order| - 1]];
    }
  }

  lemma {:induction false} ListedInOrder(ix: Index, order: seq<Fingerprint>)
    requires Distinct(order)
    ensures Distinct(UnresolvedAmong(ix, order)) && SameOrder(order, UnresolvedAmong(ix, order))
  {
    if order != [] {
      var front, last := order[..|order| - 1], order[|order| - 1];
      ListedInOrder(ix, front);
      ListedAmong(ix, front);
      assert order == front + [last];
      if AnyResolved(Records(ix, last)) {
        OrderGrows(front, UnresolvedAmong(ix, front), last);
      } else {
        OrderGrowsBoth(front, UnresolvedAmong(ix, front), last);
      }
    }
  }

  ghost predicate Distinct(order: seq<Fingerprint>) {
    forall i, j :: 0 <= i < j < |order| ==> order[i] != order[j]
  }

  lemma PrecedesStill(a: seq<Fingerprint>, x: Fingerprint, y: Fingerprint, last: Fingerprint)
    requires Precedes(a, x, y)
    ensures Precedes(a + [last], x, y)
  {
    var k, l :| 0 <= k < l < |a| && a[k] == x && a[l] == y;
    assert (a + [last])[k] == x && (a + [last])[l] == y;
  }

  lemma OrderGrows(a: seq<Fingerprint>, b: seq<Fingerprint>, last: Fingerprint)
    requires SameOrder(a, b)
    ensures SameOrder(a + [last], b)
  {
    forall i, j | 0 <= i < j < |b| ensures Precedes(a + [last], b[i], b[j]) {
      PrecedesStill(a, b[i], b[j], last);
    }
  }

  lemma OrderGrowsBoth(a: seq<Fingerprint>, b: seq<Fingerprint>, last: Fingerprint)
    requires SameOrder(a, b) && (forall fp :: fp in b ==> fp in a) && last !in b
    requires Distinct(b)
    ensures SameOrder(a + [last], b + [last]) && Distinct(b + [last])
  {
    var out := b + [last];
    forall i, j | 0 <= i < j < |out| ensures Precedes(a + [last], out[i], out[j]) {
      if j < |b| {
        PrecedesStill(a, b[i], b[j], last);
      } else {
        assert b[i] in a;
        var k :| 0 <= k < |a| && a[k] == b[i];
        assert (a + [last])[k] == b[i] && (a + [last])[|a|] == last;
      }
    }
  }

  /**
   A fingerprint is listed as unresolved exactly when it is known and no record of it is resolved, once and in the order
   of first appearance; the statistics count the known, the resolved and the unresolved fingerprints.
   */
  lemma UnresolvedExactlyWhen(ix: Index)
    requires WellFormed(ix)
    ensures forall fp :: fp in Unresolved(ix) <==> fp in NeverResolved(ix)
    ensures Distinct(Unresolved(ix)) && SameOrder(ix.order, Unresolved(ix))
    ensures StatsOf(ix).unique == |ix.lists|
    ensures StatsOf(ix).resolved == |OnceResolved(ix)|
    ensures StatsOf(ix).unresolved == |NeverResolved(ix)|
  {
    ListedAmong(ix, ix.order);
    ListedInOrder(ix, ix.order);
    forall fp ensures fp in Unresolved(ix) <==> fp in NeverResolved(ix) {
      AnyResolvedIs(Records(ix, fp));
      assert fp in ix.order <==> fp in ix.lists;
    }
    forall fp | fp in ix.lists ensures fp in NeverResolved(ix) <==> fp !in OnceResolved(ix) {
    }
    DistinctCount(ix.order, ix.lists.Keys);
    DistinctCount(Unresolved(ix), NeverResolved(ix));
    assert OnceResolved(ix) == ix.lists.Keys - NeverResolved(ix);
    UnresolvedIsShorter(ix, ix.order);
  }

  lemma {:induction false} DistinctCount(order: seq<Fingerprint>, all: set<Fingerprint>)
    requires Distinct(order) && forall fp :: fp in order <==> fp in all
    ensures |order| == |all|
  {
    if order == [] {
      assert all == {};
    } else {
      var front, last := order[..|order| - 1], order[|order| - 1];
      assert order == front + [last] && last !in front;
      DistinctCount(front, all - {last});
    }
  }

  /** The records of one fingerprint, in order. */
  function Of(records: seq<Record>, fp: Fingerprint): seq<Record> {
    if records == [] then []
    else Of(records[..|records| - 1], fp) + if records[|records| - 1].fingerprint == fp then [records[|records| - 1]] else []
  }

  lemma OfSnoc(records: seq<Record>, last: Record, fp: Fingerprint)
    ensures Of(records + [last], fp) == Of(records, fp) + if fp == last.fingerprint then [last] else []
  {
    assert (records + [last])[..|records|] == records;
  }

  /** A load keeps every record with its fingerprint, in order. */
  lemma {:induction false} LoadKeepsRecords(records: seq<Record>, fp: Fingerprint)
    ensures Records(LoadIndex(records), fp) == Of(records, fp)
  {
    if records != [] {
      var front, last := records[..|records| - 1], records[|records| - 1];
      LoadKeepsRecords(front, fp);
      AddedRecords(LoadIndex(front), last, fp);
      OfSnoc(front, last, fp);
      assert records == front + [last];
    }
  }

  /** The fingerprints a load knows are the ones of its records. */
  lemma {:induction false} LoadKnows(records: seq<Record>, fp: Fingerprint)
    ensures fp in LoadIndex(records).lists <==> Mentions(records, fp)
  {
    if records != [] {
      var front, last := records[..|records| - 1], records[|records| - 1];
      LoadKnows(front, fp);
      MentionsMore(front, last, fp);
      assert records == front + [last];
    }
  }

  /** Some record is of this fingerprint. */
  ghost predicate Mentions(records: seq<Record>, fp: Fingerprint) {
    exists i :: 0 <= i < |records| && records[i].fingerprint == fp
  }

  lemma MentionsMore(records: seq<Record>, last: Record, fp: Fingerprint)
    ensures Mentions(records + [last], fp) <==> Mentions(records, fp) || last.fingerprint == fp
  {
    var more := records + [last];
    assert more[|records|] == last && forall i :: 0 <= i < |records| ==> more[i] == records[i];
    if Mentions(records, fp) {
      var i :| 0 <= i < |records| && records[i].fingerprint == fp;
      assert more[i].fingerprint == fp;
    }
  }

  /** Every record a load finds is counted in the total. */
  lemma LoadCountsRecords(records: seq<Record>)
    ensures StatsOf(LoadIndex(records)).total == |records|
  {
    TotalOfLoad(records);
  }

  /** This record tells a resolution. */
  ghost predicate Tells(r: Record) {
    r.resolved && r.resolution.Some? && r.resolution.value != ""
  }

  /** Record `i` tells a resolution, and no newer one does. */
  ghost predicate NewestTeller(records: seq<Record>, i: int) {
    0 <= i < |records| && Tells(records[i]) && forall j :: i < j < |records| ==> !Tells(records[j])
  }

  /** The newest record that tells a resolution gives the answer, and there is none exactly when no record tells one. */
  lemma {:induction false} NewestResolutionIs(records: seq<Record>, i: int)
    ensures NewestTeller(records, i) ==> NewestResolution(records) == records[i].resolution
    ensures (forall r :: r in records ==> !Tells(r)) ==> NewestResolution(records) == None
  {
    if records != [] {
      var front, last := records[..|records| - 1], records[|records| - 1];
      assert last in records && forall r :: r in front ==> r in records;
      if !Tells(last) {
        NewestResolutionIs(front, i);
      }
    }
  }

  /** Marking resolves the open records and leaves the resolved ones as they are. */
  lemma {:induction false} ResolveAllAt(records: seq<Record>, resolution: string, i: nat)
    requires i < |records|
    ensures |ResolveAll(records, resolution)| == |records|
    ensures
      var (was, now) := (records[i], ResolveAll(records, resolution)[i]);
      if was.resolved then now == was
      else now == Record(was.fingerprint, was.category, was.rawContext, true, Some(resolution))
  {
    ResolveAllResolves(records[..|records| - 1], resolution);
    if i < |records| - 1 {
      ResolveAllAt(records[..|records| - 1], resolution, i);
    }
  }

  /** Marking a known fingerprint logs one resolved record of the first one's category; an unknown one changes nothing. */
  lemma MarkWritesOneRecord(c: Codec, s: State, fp: Fingerprint, resolution: string)
    requires Json(c) && EndsClean(s.log)
    ensures
      var t := Step(c, s, MarkResolved(fp, resolution));
      if Records(s.index, fp) == [] then t == s
      else
        && t.index.order == s.index.order && t.index.lists.Keys == s.index.lists.Keys
        && (forall other :: other != fp ==> Records(t.index, other) == Records(s.index, other))
        && Records(t.index, fp) == ResolveAll(Records(s.index, fp), resolution)
        && RecordsOf(c, t.log) == RecordsOf(c, s.log)
             + [Record(fp, Records(s.index, fp)[0].category, "[RESOLVED] " + resolution, true, Some(resolution))]
  {
    if Records(s.index, fp) != [] {
      RecordsAfterWrite(c, s.log, Marker(fp, Records(s.index, fp)[0].category, resolution));
    }
  }
}
