/**
 Keeping a project's inbox small (`crates/orrch-core/src/feedback.rs`): splitting it into `## Entry:` blocks, trimming
 completed ones and truncating old ones. Each character stands for one byte.
 */
module Feedback {
  import opened Options
  import opened Text

  const MARKER: string := "## Entry:"

  // ---- Splitting ----------------------------------------------------------------------------

  /** The blocks of a text that begins with the marker. */
  function Blocks(text: string): seq<string>
    requires MARKER <= text
    decreases |text|
  {
    var cut := NextMarker(text);
    if cut.None? then [text] else [text[..cut.value]] + Blocks(text[cut.value..])
  }

  /** Where the next marker is in a text that begins with one. */
  function NextMarker(text: string): (r: Option<nat>)
    requires MARKER <= text
    ensures r.Some? ==> |MARKER| <= r.value <= |text| && MARKER <= text[r.value..]
  {
    var next := Find(text[|MARKER|..], MARKER);
    if next.None? then None
    else
      FoundLater(text, MARKER, |MARKER|, |MARKER| + next.value);
      Some(|MARKER| + next.value)
  }

  function Entries(contents: string): seq<string> {
    var first := Find(contents, MARKER);
    if first.None? then [] else Blocks(contents[first.value..])
  }

  function Preamble(contents: string): string {
    var first := Find(contents, MARKER);
    if first.None? then contents else contents[..first.value]
  }

  function Concat(parts: seq<string>): string {
    if parts == [] then [] else parts[0] + Concat(parts[1..])
  }

  method SplitEntries(contents: string) returns (entries: seq<string>)
    ensures entries == Entries(contents)
  {
    entries := [];
    var searchFrom := 0;
    var currentStart: Option<nat> := None;
    assert contents[0..] == contents;
    var rel := Find(contents[searchFrom..], MARKER);
    while rel.Some?
      invariant Reading(contents, entries, currentStart, searchFrom)
      invariant rel == Find(contents[searchFrom..], MARKER)
      decreases |contents| - searchFrom
    {
      var abs := searchFrom + rel.value;
      entries := TakeEntry(contents, entries, currentStart, searchFrom, abs);
      currentStart := Some(abs);
      searchFrom := abs + |MARKER|;
      rel := Find(contents[searchFrom..], MARKER);
    }
    if currentStart.Some? {
      LastOwed(contents, entries, currentStart.value);
      entries := entries + [contents[currentStart.value..]];
    }
  }

  /** The search has come to `searchFrom`, just past the marker of the entry being read, if there is one. */
  ghost predicate Reading(contents: string, entries: seq<string>, currentStart: Option<nat>, searchFrom: nat) {
    && searchFrom <= |contents|
    && (currentStart.None? ==> searchFrom == 0 && entries == [])
    && (currentStart.Some? ==>
          searchFrom == currentStart.value + |MARKER| && Owed(contents, entries, currentStart.value))
  }

  /** The next marker is at `abs`: the entry before it is complete. */
  method TakeEntry(contents: string, entries: seq<string>, currentStart: Option<nat>, ghost searchFrom: nat, abs: nat)
    returns (entries': seq<string>)
    requires Reading(contents, entries, currentStart, searchFrom)
    requires searchFrom <= abs && Find(contents[searchFrom..], MARKER) == Some(abs - searchFrom)
    ensures Owed(contents, entries', abs) && abs + |MARKER| <= |contents|
  {
    if currentStart.Some? {
      BlocksStep(contents, entries, currentStart.value, abs);
      entries' := entries + [contents[currentStart.value..abs]];
    } else {
      assert contents[searchFrom..] == contents;
      FirstOwed(contents, abs);
      entries' := [];
    }
  }

  /** The entries still owed are the blocks from `start` on. */
  ghost predicate Owed(contents: string, entries: seq<string>, start: nat) {
    start <= |contents| && MARKER <= contents[start..] && entries + Blocks(contents[start..]) == Entries(contents)
  }

  lemma FirstOwed(contents: string, abs: nat)
    requires Find(contents, MARKER) == Some(abs)
    ensures Owed(contents, [], abs)
  {
    MarkerFound(contents, abs);
    assert [] + Blocks(contents[abs..]) == Blocks(contents[abs..]);
  }

  lemma LastOwed(contents: string, entries: seq<string>, start: nat)
    requires start + |MARKER| <= |contents| && Owed(contents, entries, start)
    requires Find(contents[start + |MARKER|..], MARKER).None?
    ensures entries + [contents[start..]] == Entries(contents)
  {
    assert contents[start..][|MARKER|..] == contents[start + |MARKER|..];
  }

  lemma FirstBlock(contents: string, start: nat, abs: nat)
    requires start + |MARKER| <= abs <= |contents| && MARKER <= contents[start..]
    requires Find(contents[start + |MARKER|..], MARKER) == Some(abs - start - |MARKER|)
    ensures MARKER <= contents[abs..]
    ensures Blocks(contents[start..]) == [contents[start..abs]] + Blocks(contents[abs..])
  {
    var text := contents[start..];
    NextIs(text, contents, start, abs);
    SliceOfSlice(contents, start, abs - start);
    CutBlockInto(text, abs - start, contents[start..abs], contents[abs..]);
  }

  lemma CutBlockInto(text: string, cut: nat, first: string, rest: string)
    requires MARKER <= text && NextMarker(text) == Some(cut) && cut <= |text|
    requires text[..cut] == first && text[cut..] == rest
    ensures MARKER <= rest && Blocks(text) == [first] + Blocks(rest)
  {
    CutBlock(text, cut);
  }

  lemma NextIs(text: string, contents: string, start: nat, abs: nat)
    requires start + |MARKER| <= abs <= |contents| && text == contents[start..] && MARKER <= text
    requires Find(contents[start + |MARKER|..], MARKER) == Some(abs - start - |MARKER|)
    ensures NextMarker(text) == Some(abs - start)
  {
    SliceOfSlice(contents, start, |MARKER|);
  }

  lemma CutBlock(text: string, cut: nat)
    requires MARKER <= text && NextMarker(text) == Some(cut)
    ensures Blocks(text) == [text[..cut]] + Blocks(text[cut..])
  {
  }

  lemma FoundLater(text: string, needle: string, from: nat, at: nat)
    requires from <= at <= |text| && Find(text[from..], needle) == Some(at - from)
    ensures needle <= text[at..]
  {
    FindIsThere(text[from..], needle, at - from);
    SliceOfSlice(text, from, at - from);
  }

  lemma SliceOfSlice(s: string, a: nat, n: nat)
    requires a + n <= |s|
    ensures s[a..][n..] == s[a + n..] && s[a..][..n] == s[a..a + n]
  {
  }

  lemma BlocksStep(contents: string, entries: seq<string>, start: nat, abs: nat)
    requires start + |MARKER| <= abs <= |contents| && Owed(contents, entries, start)
    requires Find(contents[start + |MARKER|..], MARKER) == Some(abs - start - |MARKER|)
    ensures Owed(contents, entries + [contents[start..abs]], abs)
  {
    FirstBlock(contents, start, abs);
    Regroup(entries, contents[start..abs], Blocks(contents[abs..]));
  }

  lemma Regroup<T>(a: seq<T>, x: T, b: seq<T>)
    ensures a + ([x] + b) == (a + [x]) + b
  {
  }

  // ---- Splitting and joining are inverse ----------------------------------------------------

  lemma {:induction false} BlocksConcat(text: string)
    requires MARKER <= text
    ensures Concat(Blocks(text)) == text
    decreases |text|
  {
    var next := Find(text[|MARKER|..], MARKER);
    if next.None? {
      assert Concat([text][1..]) == [];
    } else {
      var cut := |MARKER| + next.value;
      assert text[cut..] == text[|MARKER|..][next.value..];
      BlocksConcat(text[cut..]);
      assert text == text[..cut] + text[cut..];
      assert Blocks(text)[1..] == Blocks(text[cut..]);
    }
  }

  /** Nothing is lost: the preamble followed by the entries is the file. */
  lemma SplitJoins(contents: string)
    ensures Preamble(contents) + Concat(Entries(contents)) == contents
  {
    var first := Find(contents, MARKER);
    if first.Some? {
      var cut := first.value;
      MarkerFound(contents, cut);
      BlocksConcat(contents[cut..]);
      assert Preamble(contents) == contents[..cut] && Entries(contents) == Blocks(contents[cut..]);
      assert contents == contents[..cut] + contents[cut..];
    } else {
      assert Preamble(contents) == contents && Concat(Entries(contents)) == [];
      assert contents + [] == contents;
    }
  }

  lemma MarkerFound(contents: string, at: nat)
    requires Find(contents, MARKER) == Some(at)
    ensures at <= |contents| && MARKER <= contents[at..]
  {
    FindIsThere(contents, MARKER, at);
  }

  /** A block begins with the marker and holds no other. */
  predicate IsEntry(e: string) {
    MARKER <= e && Find(e[|MARKER|..], MARKER).None?
  }

  /** The marker has no border: no proper suffix of it is also a prefix. */
  lemma MarkerHasNoBorder(b: nat)
    requires 0 < b < |MARKER|
    ensures MARKER[|MARKER| - b..] != MARKER[..b]
  {
    assert MARKER[|MARKER| - b..][b - 1] == ':';
    assert MARKER[..b][b - 1] == MARKER[b - 1] != ':';
  }

  /** Hence an occurrence cannot straddle the place where an entry is appended. */
  lemma NoStraddle(a: string, b: string, j: nat)
    requires Find(a, MARKER).None? && (b == [] || MARKER <= b) && j < |a|
    ensures !(MARKER <= (a + b)[j..])
  {
    var n := |MARKER|;
    if j + n <= |a| || b == [] {
      NotInside(a, MARKER, j);
      InsideFirst(a, b, MARKER, j);
    } else {
      var over := j + n - |a|;
      MarkerHasNoBorder(over);
      StraddleMakesBorder(a, b, MARKER, j);
    }
  }

  lemma InsideFirst(a: string, b: string, needle: string, j: nat)
    requires j < |a| && (j + |needle| <= |a| || b == [])
    ensures needle <= (a + b)[j..] <==> needle <= a[j..]
  {
    if b == [] {
      assert a + b == a;
    } else {
      assert (a + b)[j..] == a[j..] + b;
    }
  }

  /** An occurrence across the place where two texts meet makes a border of the needle the second begins with. */
  lemma StraddleMakesBorder(a: string, b: string, needle: string, j: nat)
    requires j < |a| < j + |needle| && needle <= b
    ensures
      var over := j + |needle| - |a|;
      needle <= (a + b)[j..] ==> needle[|needle| - over..] == needle[..over]
  {
    var over := j + |needle| - |a|;
    assert (a + b)[j..] == a[j..] + b;
    assert (a[j..] + b)[|needle| - over..|needle|] == b[..over] == needle[..over];
    assert needle <= a[j..] + b ==> needle == (a[j..] + b)[..|needle|];
    assert (a[j..] + b)[..|needle|][|needle| - over..] == (a[j..] + b)[|needle| - over..|needle|];
  }

  lemma FindAtJoin(a: string, b: string)
    requires Find(a, MARKER).None? && (b == [] || MARKER <= b)
    ensures Find(a + b, MARKER) == if b == [] then None else Some(|a|)
  {
    if b == [] {
      assert a + b == a;
    } else {
      forall j | 0 <= j < |a|
        ensures !(MARKER <= (a + b)[j..])
      {
        NoStraddle(a, b, j);
      }
      assert (a + b)[|a|..] == b;
      FindIs(a + b, MARKER, |a|);
    }
  }

  predicate AllEntries(es: seq<string>) {
    forall i :: 0 <= i < |es| ==> IsEntry(es[i])
  }

  lemma ConcatStarts(es: seq<string>)
    requires AllEntries(es)
    ensures es == [] ==> Concat(es) == []
    ensures es != [] ==> MARKER <= Concat(es)
  {
    if es != [] {
      assert IsEntry(es[0]);
    }
  }

  lemma {:induction false} BlocksOfConcat(es: seq<string>)
    requires AllEntries(es) && es != []
    ensures MARKER <= Concat(es) && Blocks(Concat(es)) == es
  {
    var e, rest := es[0], Concat(es[1..]);
    assert IsEntry(e);
    ConcatStarts(es[1..]);
    assert es == [e] + es[1..];
    if es[1..] == [] {
      LoneBlock(e);
      assert e + rest == e;
    } else {
      BlocksOfConcat(es[1..]);
      FirstOfBlocks(e, rest);
    }
  }

  lemma LoneBlock(e: string)
    requires IsEntry(e)
    ensures Blocks(e) == [e]
  {
  }

  lemma FirstOfBlocks(e: string, rest: string)
    requires IsEntry(e) && MARKER <= rest
    ensures MARKER <= e + rest && Blocks(e + rest) == [e] + Blocks(rest)
  {
    var text := e + rest;
    assert text[|MARKER|..] == e[|MARKER|..] + rest;
    FindAtJoin(e[|MARKER|..], rest);
    assert text[..|e|] == e && text[|e|..] == rest;
  }

  /** Any list of entries after any marker-free preamble splits back into that preamble and that list. */
  lemma JoinSplits(preamble: string, es: seq<string>)
    requires Find(preamble, MARKER).None? && AllEntries(es)
    ensures Entries(preamble + Concat(es)) == es
    ensures Preamble(preamble + Concat(es)) == preamble
  {
    ConcatStarts(es);
    FindAtJoin(preamble, Concat(es));
    if es == [] {
      assert preamble + Concat(es) == preamble;
    } else {
      BlocksOfConcat(es);
      var all := preamble + Concat(es);
      assert all[|preamble|..] == Concat(es) && all[..|preamble|] == preamble;
    }
  }

  lemma PrefixHasNone(text: string, cut: nat)
    requires cut <= |text| && forall j :: 0 <= j < cut ==> !(MARKER <= text[j..])
    ensures Find(text[..cut], MARKER).None?
  {
    var head := text[..cut];
    var r := Find(head, MARKER);
    var at := if r.Some? then r.value else 0;
    PrefixExtends(text, cut, at);
  }

  lemma PrefixExtends(text: string, cut: nat, at: nat)
    requires at <= cut <= |text|
    ensures MARKER <= text[..cut][at..] ==> MARKER <= text[at..]
  {
    assert text[at..][..cut - at] == text[..cut][at..];
  }

  lemma FirstBlockIsEntry(text: string, cut: nat)
    requires MARKER <= text && NextMarker(text) == Some(cut)
    ensures IsEntry(text[..cut])
  {
    var tail := text[|MARKER|..];
    FindIsFirst(tail, MARKER);
    PrefixHasNone(tail, cut - |MARKER|);
    assert text[..cut][|MARKER|..] == tail[..cut - |MARKER|];
    assert text[..cut][..|MARKER|] == text[..|MARKER|];
  }

  lemma {:induction false} BlocksAreEntries(text: string)
    requires MARKER <= text
    ensures AllEntries(Blocks(text))
    decreases |text|
  {
    var next := NextMarker(text);
    if next.Some? {
      FirstBlockIsEntry(text, next.value);
      BlocksAreEntries(text[next.value..]);
    }
  }

  lemma SplitShape(contents: string)
    ensures AllEntries(Entries(contents)) && Find(Preamble(contents), MARKER).None?
  {
    var first := Find(contents, MARKER);
    if first.Some? {
      BlocksAreEntries(contents[first.value..]);
      FindIsFirst(contents, MARKER);
      PrefixHasNone(contents, first.value);
    }
  }

  // ---- Trimming completed entries -----------------------------------------------------------

  predicate IsCompleted(entry: string) {
    Contains(entry, "Executed: complete") || Contains(entry, "Executed: done")
  }

  function Pending(es: seq<string>): (r: seq<string>)
    ensures |r| <= |es|
  {
    if es == [] then []
    else
      var last := es[|es| - 1];
      Pending(es[..|es| - 1]) + if IsCompleted(last) then [] else [last]
  }

  /** The file after trimming, and how many entries went. */
  function Trimmed(contents: string): (string, nat) {
    var es := Entries(contents);
    var kept := Pending(es);
    if |kept| == |es| then (contents, 0) else (Preamble(contents) + Concat(kept), |es| - |kept|)
  }

  lemma {:induction false} PendingIsPart(es: seq<string>, i: nat)
    requires i < |Pending(es)|
    ensures Pending(es)[i] in es && !IsCompleted(Pending(es)[i])
  {
    var front := es[..|es| - 1];
    if i < |Pending(front)| {
      PendingIsPart(front, i);
      assert Pending(es)[i] == Pending(front)[i];
    }
  }

  lemma PendingSnoc(front: seq<string>, last: string)
    ensures Pending(front + [last]) == Pending(front) + if IsCompleted(last) then [] else [last]
  {
    assert (front + [last])[..|front|] == front;
  }

  lemma {:induction false} NonePending(es: seq<string>)
    ensures |Pending(es)| == |es| ==> Pending(es) == es
  {
    if es != [] {
      var front, last := es[..|es| - 1], es[|es| - 1];
      NonePending(front);
      PendingSnoc(front, last);
      assert es == front + [last];
    }
  }

  lemma PendingFacts(es: seq<string>)
    requires AllEntries(es)
    ensures AllEntries(Pending(es)) && NoneCompleted(Pending(es))
    ensures |Pending(es)| == |es| ==> Pending(es) == es
  {
    NonePending(es);
    forall i | 0 <= i < |Pending(es)| ensures IsEntry(Pending(es)[i]) && !IsCompleted(Pending(es)[i]) {
      PendingIsPart(es, i);
    }
  }

  predicate NoneCompleted(es: seq<string>) {
    forall i :: 0 <= i < |es| ==> !IsCompleted(es[i])
  }

  lemma {:induction false} PendingKeeps(es: seq<string>)
    requires NoneCompleted(es)
    ensures Pending(es) == es
  {
    if es != [] {
      PendingKeeps(es[..|es| - 1]);
      assert es == es[..|es| - 1] + [es[|es| - 1]];
    }
  }

  /** Trimming keeps the preamble and exactly the entries that are not completed, in order, and counts the
      others; a second call removes none. */
  lemma TrimRemovesExactlyCompleted(contents: string)
    ensures
      var (after, removed) := Trimmed(contents);
      && Preamble(after) == Preamble(contents)
      && Entries(after) == Pending(Entries(contents))
      && removed == |Entries(contents)| - |Pending(Entries(contents))|
      && Trimmed(after) == (after, 0)
  {
    var es := Entries(contents);
    SplitShape(contents);
    PendingFacts(es);
    PendingKeeps(Pending(es));
    JoinSplits(Preamble(contents), Pending(es));
  }

  /** An entry goes exactly when it says it was executed, whatever stands around that; the others stay in order. */
  lemma EntryGoesExactlyWhen(front: seq<string>, last: string)
    ensures Pending(front + [last])
         == Pending(front) + if Says(last, "Executed: complete") || Says(last, "Executed: done") then [] else [last]
  {
    PendingSnoc(front, last);
    ContainsExactlyWhen(last, "Executed: complete");
    ContainsExactlyWhen(last, "Executed: done");
  }

  // ---- Truncating ---------------------------------------------------------------------------

  /** What follows the project name in the header line; the dash is the three bytes of U+2014. */
  const DASH: string := " \U{E2}\U{80}\U{94} Instructions Inbox\n"

  function Header(projectName: string): string {
    "# " + projectName + DASH
  }

  function Marker(timestamp: string, kept: nat, total: nat): string {
    "\n<!-- truncated " + timestamp + ", kept " + Decimal(kept) + " of " + Decimal(total) + " entries -->\n"
  }

  /** What is reserved before any entry is kept. */
  function Reserved(projectName: string, timestamp: string, total: nat): nat {
    |Header(projectName)| + |Marker(timestamp, total, total)|
  }

  function Newest(es: seq<string>, k: nat): seq<string>
    requires k <= |es|
  {
    es[|es| - k..]
  }

  predicate Fits(es: seq<string>, k: nat, reserved: nat, maxBytes: nat)
    requires k <= |es|
  {
    reserved + |Concat(Newest(es, k))| <= maxBytes
  }

  /** How many entries the walk from the newest keeps. */
  function KeepCount(es: seq<string>, reserved: nat, maxBytes: nat): (k: nat)
    ensures k <= |es|
  {
    if es == [] || reserved + |es[|es| - 1]| > maxBytes then 0
    else 1 + KeepCount(es[..|es| - 1], reserved + |es[|es| - 1]|, maxBytes)
  }

  function Truncated(contents: string, projectName: string, timestamp: string, maxBytes: nat): Option<string> {
    var es := Entries(contents);
    if |contents| <= maxBytes || es == [] then None else Some(Rebuilt(es, projectName, timestamp, maxBytes))
  }

  function Rebuilt(es: seq<string>, projectName: string, timestamp: string, maxBytes: nat): string
    requires es != []
  {
    var kept := KeptCount(es, Reserved(projectName, timestamp, |es|), maxBytes);
    Header(projectName) + Marker(timestamp, kept, |es|) + Concat(Newest(es, kept))
  }

  lemma {:induction false} ConcatSnoc(parts: seq<string>, last: string)
    ensures Concat(parts + [last]) == Concat(parts) + last
  {
    if parts == [] {
      assert parts + [last] == [last];
      assert Concat([last][1..]) == [];
    } else {
      ConcatSnoc(parts[1..], last);
      assert (parts + [last])[1..] == parts[1..] + [last];
    }
  }

  lemma NewestOfFront(es: seq<string>, k: nat)
    requires 0 < k <= |es|
    ensures |Concat(Newest(es, k))| == |Concat(Newest(es[..|es| - 1], k - 1))| + |es[|es| - 1]|
  {
    var front, last := es[..|es| - 1], es[|es| - 1];
    assert Newest(es, k) == Newest(front, k - 1) + [last];
    ConcatSnoc(Newest(front, k - 1), last);
  }

  /** The walk keeps the longest suffix of entries that fits. */
  lemma {:induction false} KeepCountIsLongest(es: seq<string>, reserved: nat, maxBytes: nat)
    ensures
      var k := KeepCount(es, reserved, maxBytes);
      && (k > 0 ==> Fits(es, k, reserved, maxBytes))
      && forall j :: k < j <= |es| ==> !Fits(es, j, reserved, maxBytes)
  {
    if es != [] {
      var front, last := es[..|es| - 1], es[|es| - 1];
      KeepCountIsLongest(front, reserved + |last|, maxBytes);
      var k := KeepCount(es, reserved, maxBytes);
      if k > 0 {
        NewestOfFront(es, k);
        if k == 1 {
          assert Newest(front, 0) == [];
        }
      }
      forall j | k < j <= |es|
        ensures !Fits(es, j, reserved, maxBytes)
      {
        NewestOfFront(es, j);
        if k > 0 {
          assert !Fits(front, j - 1, reserved + |last|, maxBytes);
        }
      }
    }
  }

  lemma {:induction false} DecimalGrows(a: nat, b: nat)
    requires a <= b
    ensures |Decimal(a)| <= |Decimal(b)|
    decreases b
  {
    if a >= 10 {
      DecimalGrows(a / 10, b / 10);
    }
  }

  lemma MarkerGrows(timestamp: string, kept: nat, total: nat)
    requires kept <= total
    ensures |Marker(timestamp, kept, total)| <= |Marker(timestamp, total, total)|
  {
    DecimalGrows(kept, total);
  }

  function KeptCount(es: seq<string>, reserved: nat, maxBytes: nat): (k: nat)
    requires es != []
    ensures 0 < k <= |es|
  {
    var fitting := KeepCount(es, reserved, maxBytes);
    if fitting == 0 then 1 else fitting
  }

  /** A file is rewritten exactly when it is over the limit and holds an entry; one of just the limit is left alone. */
  lemma TruncatesExactlyWhen(contents: string, projectName: string, timestamp: string, maxBytes: nat)
    ensures Truncated(contents, projectName, timestamp, maxBytes).Some? <==>
            |contents| > maxBytes && Says(contents, MARKER)
  {
    var first := Find(contents, MARKER);
    FindIsFirst(contents, MARKER);
    if first.Some? {
      FindIsThere(contents, MARKER, first.value);
    }
  }

  /** The two lines above the kept entries, spelled out for three entries of seven. */
  lemma HeaderIsSpelledOut(projectName: string, timestamp: string)
    ensures Header(projectName) == "# " + projectName + " \U{E2}\U{80}\U{94} Instructions Inbox\n"
    ensures Marker(timestamp, 3, 7) == "\n<!-- truncated " + timestamp + ", kept " + "3" + " of " + "7" + " entries -->\n"
  {
    var a, b: string := "3", "7";
    assert Decimal(3) == a && Decimal(7) == b;
  }

  /** What is kept is the longest suffix of entries that fits in `maxBytes` beside the reserved bytes; only when
      not even the newest entry fits is exactly that entry kept. */
  lemma KeptIsLongestSuffix(es: seq<string>, reserved: nat, maxBytes: nat)
    requires es != []
    ensures
      var k := KeptCount(es, reserved, maxBytes);
      && (Fits(es, 1, reserved, maxBytes) <==> KeepCount(es, reserved, maxBytes) > 0)
      && (forall j :: k < j <= |es| ==> !Fits(es, j, reserved, maxBytes))
      && (if Fits(es, 1, reserved, maxBytes) then Fits(es, k, reserved, maxBytes) else k == 1)
  {
    KeepCountIsLongest(es, reserved, maxBytes);
    var last := es[|es| - 1];
    assert Newest(es, 1) == [last];
    assert Concat([last][1..]) == [];
    assert Concat([last]) == last;
  }

  /** A truncated file fits in `maxBytes`, unless its newest entry does not together with header and marker. */
  lemma TruncatedFits(contents: string, projectName: string, timestamp: string, maxBytes: nat)
    requires Truncated(contents, projectName, timestamp, maxBytes).Some?
    requires Fits(Entries(contents), 1, Reserved(projectName, timestamp, |Entries(contents)|), maxBytes)
    ensures |Truncated(contents, projectName, timestamp, maxBytes).value| <= maxBytes
  {
    var es := Entries(contents);
    var reserved := Reserved(projectName, timestamp, |es|);
    KeptIsLongestSuffix(es, reserved, maxBytes);
    MarkerGrows(timestamp, KeptCount(es, reserved, maxBytes), |es|);
  }

  /** The kept entries are read back if and only if the new header does not itself hold the entry marker. */
  lemma TruncatedSplits(contents: string, projectName: string, timestamp: string, maxBytes: nat)
    requires Truncated(contents, projectName, timestamp, maxBytes).Some?
    ensures
      var es := Entries(contents);
      var k := KeptCount(es, Reserved(projectName, timestamp, |es|), maxBytes);
      var head := Header(projectName) + Marker(timestamp, k, |es|);
      Entries(Truncated(contents, projectName, timestamp, maxBytes).value) == Newest(es, k) <==> Find(head, MARKER).None?
  {
    var es := Entries(contents);
    var k := KeptCount(es, Reserved(projectName, timestamp, |es|), maxBytes);
    var head := Header(projectName) + Marker(timestamp, k, |es|);
    if Find(head, MARKER).None? {
      SplitShape(contents);
      JoinSplits(head, Newest(es, k));
    } else {
      MarkerInHead(head, Concat(Newest(es, k)));
    }
  }

  lemma {:induction false} FoundInFirst(a: string, b: string, needle: string)
    requires Find(a, needle).Some?
    ensures Find(a + b, needle) == Find(a, needle)
  {
    var at := Find(a, needle).value;
    if needle <= a {
      assert needle <= a + b;
    } else {
      assert !(needle <= a + b) by {
        assert |needle| <= |a|;
        assert (a + b)[..|needle|] == a[..|needle|];
      }
      assert (a + b)[1..] == a[1..] + b;
      FoundInFirst(a[1..], b, needle);
    }
  }

  /** With a marker in the header the entries read are longer in all than those written. */
  lemma MarkerInHead(head: string, body: string)
    requires Find(head, MARKER).Some?
    ensures |Concat(Entries(head + body))| > |body|
  {
    FoundInFirst(head, body, MARKER);
    SplitJoins(head + body);
  }

  lemma FoundInside(a: string, b: string, c: string, needle: string)
    requires Find(b, needle).Some?
    ensures Find(a + b + c, needle).Some?
  {
    var at := Find(b, needle).value;
    FindIsThere(b, needle, at);
    var s := a + b + c;
    assert s[|a| + at..] == b[at..] + c;
    if Find(s, needle).None? {
      NotInside(s, needle, |a| + at);
    }
  }

  /** What follows the project name before the kept entries has no `#`, and its second character is not the marker's. */
  predicate NoMarkerAfter(rest: string) {
    '#' !in rest && |rest| > 1 && rest[0] == ' ' && rest[1] != 'E'
  }

  lemma NoHash(timestamp: string, kept: nat, total: nat)
    requires '#' !in timestamp
    ensures NoMarkerAfter(DASH + Marker(timestamp, kept, total))
  {
    var marker := Marker(timestamp, kept, total);
    DashIsPlain();
    MarkerIsPlain(timestamp, kept, total);
    assert (DASH + marker)[0] == DASH[0] && (DASH + marker)[1] == DASH[1];
  }

  lemma DashIsPlain()
    ensures '#' !in DASH && |DASH| > 1 && DASH[0] == ' ' && DASH[1] == '\U{E2}'
  {
  }

  lemma MarkerIsPlain(timestamp: string, kept: nat, total: nat)
    requires '#' !in timestamp
    ensures '#' !in Marker(timestamp, kept, total)
  {
    assert '#' !in "\n<!-- truncated " && '#' !in ", kept " && '#' !in " of " && '#' !in " entries -->\n";
    assert '#' !in Decimal(kept) && '#' !in Decimal(total);
    HashFree("\n<!-- truncated ", timestamp, ", kept ", Decimal(kept), " of ", Decimal(total), " entries -->\n");
  }

  lemma HashFree(a: string, b: string, c: string, d: string, e: string, f: string, g: string)
    requires '#' !in a && '#' !in b && '#' !in c && '#' !in d && '#' !in e && '#' !in f && '#' !in g
    ensures '#' !in a + b + c + d + e + f + g
  {
  }

  /** A marker at place `j` of the header lies inside the name. */
  lemma MarkerInsideName(name: string, rest: string, j: nat)
    requires NoMarkerAfter(rest) && j + |MARKER| <= 2 + |name| + |rest|
    requires forall i :: 0 <= i < |MARKER| ==> ("# " + name + rest)[j + i] == MARKER[i]
    ensures 2 <= j && j - 2 + |MARKER| <= |name| && MARKER <= name[j - 2..]
  {
    var head := "# " + name + rest;
    var m := MARKER;
    assert m[0] == '#' && m[1] == '#' && m[2] == ' ' && m[3] == 'E';
    assert head[0] == '#' && head[1] == ' ';
    assert head[j + 0] == '#' && head[j + 1] == '#' && head[j + 2] == ' ' && head[j + 3] == 'E';
    assert forall i :: 0 <= i < |rest| ==> head[2 + |name| + i] == rest[i];
    assert forall i :: 0 <= i < |name| ==> head[2 + i] == name[i];
    assert 2 <= j && j + 1 < 2 + |name|;
    var over := 2 + |name| - j;
    if over < |m| {
      assert head[j + over] == m[over] == rest[0] == ' ';
      OneBlank(over);
      assert false;
    }
    assert name[j - 2..][..|m|] == m;
  }

  /** Past its two hashes the marker has one blank. */
  lemma OneBlank(i: nat)
    requires 2 <= i < |MARKER| && MARKER[i] == ' '
    ensures i == 2
  {
  }

  lemma MarkerStands(s: string, needle: string, at: nat)
    requires Find(s, needle) == Some(at)
    ensures at + |needle| <= |s| && forall i :: 0 <= i < |needle| ==> s[at + i] == needle[i]
  {
    FindIsThere(s, needle, at);
    assert forall i :: 0 <= i < |needle| ==> s[at..][i] == needle[i];
  }

  lemma HeaderHoldsMarkerExactlyWhen(name: string, rest: string)
    requires NoMarkerAfter(rest)
    ensures Find("# " + name + rest, MARKER).Some? <==> Find(name, MARKER).Some?
  {
    if Find(name, MARKER).Some? {
      FoundInside("# ", name, rest, MARKER);
    }
    if Find("# " + name + rest, MARKER).Some? {
      var j := Find("# " + name + rest, MARKER).value;
      MarkerStands("# " + name + rest, MARKER, j);
      MarkerInsideName(name, rest, j);
      if Find(name, MARKER).None? {
        NotInside(name, MARKER, j - 2);
      }
    }
  }

  /** With a timestamp free of `#` the kept entries are read back if and only if the project name does not hold the marker. */
  lemma TruncatedSplitsByName(contents: string, projectName: string, timestamp: string, maxBytes: nat)
    requires Truncated(contents, projectName, timestamp, maxBytes).Some? && '#' !in timestamp
    ensures
      var es := Entries(contents);
      var k := KeptCount(es, Reserved(projectName, timestamp, |es|), maxBytes);
      var back := Entries(Truncated(contents, projectName, timestamp, maxBytes).value);
      back == Newest(es, k) <==> Find(projectName, MARKER).None?
  {
    var es := Entries(contents);
    var k := KeptCount(es, Reserved(projectName, timestamp, |es|), maxBytes);
    HeadByName(projectName, timestamp, k, |es|);
    TruncatedSplits(contents, projectName, timestamp, maxBytes);
  }

  lemma HeadIs(name: string, tail: string)
    ensures Header(name) + tail == "# " + name + (DASH + tail)
  {
    assert "# " + name + DASH + tail == "# " + name + (DASH + tail);
  }

  lemma HeadByName(name: string, timestamp: string, kept: nat, total: nat)
    ensures Find(name, MARKER).Some? ==> Find(Header(name) + Marker(timestamp, kept, total), MARKER).Some?
    ensures '#' !in timestamp ==>
      (Find(name, MARKER).Some? <==> Find(Header(name) + Marker(timestamp, kept, total), MARKER).Some?)
  {
    HeadWith(name, Marker(timestamp, kept, total));
    if '#' !in timestamp {
      NoHash(timestamp, kept, total);
    }
  }

  lemma HeadWith(name: string, tail: string)
    ensures Find(name, MARKER).Some? ==> Find(Header(name) + tail, MARKER).Some?
    ensures NoMarkerAfter(DASH + tail) ==> (Find(name, MARKER).Some? <==> Find(Header(name) + tail, MARKER).Some?)
  {
    HeadIs(name, tail);
    if Find(name, MARKER).Some? {
      FoundInside("# ", name, DASH + tail, MARKER);
    }
    if NoMarkerAfter(DASH + tail) {
      HeaderHoldsMarkerExactlyWhen(name, DASH + tail);
    }
  }

  /** A project name that holds the marker spoils the kept entries whatever the timestamp. */
  lemma NameWithMarkerSpoilsEntries(contents: string, projectName: string, timestamp: string, maxBytes: nat)
    requires Truncated(contents, projectName, timestamp, maxBytes).Some? && Find(projectName, MARKER).Some?
    ensures
      var es := Entries(contents);
      var k := KeptCount(es, Reserved(projectName, timestamp, |es|), maxBytes);
      Entries(Truncated(contents, projectName, timestamp, maxBytes).value) != Newest(es, k)
  {
    var es := Entries(contents);
    var k := KeptCount(es, Reserved(projectName, timestamp, |es|), maxBytes);
    HeadByName(projectName, timestamp, k, |es|);
    TruncatedSplits(contents, projectName, timestamp, maxBytes);
  }

  // ---- The inbox file -----------------------------------------------------------------------

  method WalkFromNewest(entries: seq<string>, reserved: nat, maxBytes: nat) returns (keptCount: nat)
    ensures keptCount == KeepCount(entries, reserved, maxBytes)
  {
    var usedBytes: nat := reserved;
    keptCount := 0;
    assert entries[..|entries|] == entries;
    while keptCount < |entries| && usedBytes + |entries[|entries| - 1 - keptCount]| <= maxBytes
      invariant keptCount <= |entries|
      invariant KeepCount(entries, reserved, maxBytes)
             == keptCount + KeepCount(entries[..|entries| - keptCount], usedBytes, maxBytes)
    {
      var left := entries[..|entries| - keptCount];
      assert left[..|left| - 1] == entries[..|entries| - keptCount - 1];
      usedBytes := usedBytes + |entries[|entries| - 1 - keptCount]|;
      keptCount := keptCount + 1;
    }
  }

  /** The header, the truncation marker and the newest entries that fit, but at least one. */
  method RebuildNewest(entries: seq<string>, projectName: string, timestamp: string, maxBytes: nat)
    returns (out: string)
    requires entries != []
    ensures out == Rebuilt(entries, projectName, timestamp, maxBytes)
  {
    var total := |entries|;
    var header := Header(projectName);
    var reserved := |header| + |Marker(timestamp, total, total)|;
    var keptCount := WalkFromNewest(entries, reserved, maxBytes);
    if keptCount == 0 {
      keptCount := 1;
    }
    out := header + Marker(timestamp, keptCount, total);
    var body := ConcatAll(entries[total - keptCount..]);
    out := out + body;
  }

  class Inbox {
    var contents: Option<string>

    constructor (contents: Option<string>)
      ensures this.contents == contents
    {
      this.contents := contents;
    }

    method TruncateIfLarge(projectName: string, timestamp: string, maxBytes: nat) returns (truncated: bool)
      modifies this
      ensures
        var out := if old(contents).None? then None else Truncated(old(contents).value, projectName, timestamp, maxBytes);
        truncated == out.Some? && contents == if out.Some? then out else old(contents)
    {
      if contents.None? {
        return false;
      }
      if |contents.value| <= maxBytes {
        return false;
      }
      var entries := SplitEntries(contents.value);
      var total := |entries|;
      if total == 0 {
        return false;
      }
      var out := RebuildNewest(entries, projectName, timestamp, maxBytes);
      contents := Some(out);
      return true;
    }

    method TrimCompleted() returns (removed: nat)
      modifies this
      ensures
        var (after, count) := if old(contents).None? then ([], 0) else Trimmed(old(contents).value);
        removed == count && contents == if old(contents).None? then None else Some(after)
    {
      if contents.None? {
        return 0;
      }
      var preamble := Preamble(contents.value);
      var entries := SplitEntries(contents.value);
      var kept;
      kept, removed := DropCompleted(entries);
      if removed == 0 {
        return 0;
      }
      var body := ConcatAll(kept);
      contents := Some(preamble + body);
    }
  }

  method DropCompleted(entries: seq<string>) returns (kept: seq<string>, removed: nat)
    ensures kept == Pending(entries) && removed == |entries| - |kept|
  {
    removed := 0;
    kept := [];
    var i := 0;
    while i < |entries|
      invariant i <= |entries|
      invariant kept == Pending(entries[..i]) && removed == i - |kept|
    {
      assert entries[..i + 1][..i] == entries[..i];
      if IsCompleted(entries[i]) {
        removed := removed + 1;
      } else {
        kept := kept + [entries[i]];
      }
      i := i + 1;
    }
    assert entries[..i] == entries;
  }

  method ConcatAll(parts: seq<string>) returns (out: string)
    ensures out == Concat(parts)
  {
    out := [];
    var i := 0;
    while i < |parts|
      invariant i <= |parts| && out == Concat(parts[..i])
    {
      assert parts[..i + 1] == parts[..i] + [parts[i]];
      ConcatSnoc(parts[..i], parts[i]);
      out := out + parts[i];
      i := i + 1;
    }
    assert parts[..i] == parts;
  }
}
