/**
 What parsing returns after `mark_verified_in_plan` (`crates/orrch-core/src/plan_parser.rs`): how a marked table row is
 read, from the marker in its status cell out to the whole line, and what becomes of the plan. Two scans that differ in
 one verified feature go on alike, so the rest of the plan, description text included, stays as it was.
 */
module PlanMarked {
  import opened Options
  import opened Text
  import opened PlanText
  import opened PlanParser
  import opened PlanMove
  import opened PlanRows
  import opened PlanAppend
  import opened PlanVerify

  // ---- A table row and its status cell ------------------------------------------------------

  /** The text of a status cell that the marker is read from. */
  function StatusText(cell: string): string {
    Trim(TrimEndOf(TrimStartOf(Trim(cell), "`"), "`"))
  }

  predicate HoldsNoMark(pieces: seq<string>) {
    forall i :: 0 <= i < |pieces| ==> Find(pieces[i], "[x]").None?
  }

  /** A feature row whose status cell is not the title cell, begins with `[x]` and is the first to hold `[x]`. */
  predicate DoneRow(s: string) {
    ParseTableFeatureLine(s).Some? &&
    var pieces := RowPieces(s);
    var q := FirstStatusCell(TrimAll(pieces));
    q.Some? && q.value != 1 && "[x]" <= StatusText(pieces[q.value]) && HoldsNoMark(pieces[..q.value])
  }

  // ---- The marker inside the cell -----------------------------------------------------------

  /** The first bracket of `s` opens an `[x]`, and `t` has a `v` in it. */
  predicate MarkedAt(s: string, t: string, k: nat) {
    && k + 3 <= |s| && s[k..k + 3] == "[x]" && t == s[k + 1 := 'v']
    && forall i :: 0 <= i < k ==> s[i] != '['
  }

  lemma {:induction false} TrimStartOfStops(s: string, set_: string) returns (n: nat)
    ensures n <= |s| && TrimStartOf(s, set_) == s[n..] && (n < |s| ==> s[n] !in set_)
    ensures forall i :: 0 <= i < n ==> s[i] in set_
  {
    if s != [] && s[0] in set_ {
      n := TrimStartOfStops(s[1..], set_);
      n := n + 1;
      assert s[1..][n - 1..] == s[n..];
    } else {
      n := 0;
    }
  }

  lemma {:induction false} TrimStartOfIs(s: string, set_: string, n: nat)
    requires n < |s| && s[n] !in set_ && forall i :: 0 <= i < n ==> s[i] in set_
    ensures TrimStartOf(s, set_) == s[n..]
  {
    if n > 0 {
      TrimStartOfIs(s[1..], set_, n - 1);
      assert s[1..][n - 1..] == s[n..];
    }
  }

  lemma {:induction false} TrimEndOfIsPrefix(s: string, set_: string)
    ensures TrimEndOf(s, set_) <= s
  {
    if s != [] && s[|s| - 1] in set_ {
      TrimEndOfIsPrefix(s[..|s| - 1], set_);
    }
  }

  lemma {:induction false} TrimEndOfFlipped(s: string, t: string, at: nat, set_: string)
    requires Flipped(s, t, at) && 'x' !in set_ && 'v' !in set_
    ensures |TrimEndOf(s, set_)| > at && Flipped(TrimEndOf(s, set_), TrimEndOf(t, set_), at)
  {
    if at < |s| - 1 && s[|s| - 1] in set_ {
      TrimEndOfFlipped(s[..|s| - 1], t[..|s| - 1], at, set_);
    }
  }

  /** Trimming both strings drops the same characters of the set. */
  lemma TrimOfFlipped(s: string, t: string, at: nat, set_: string) returns (n: nat)
    requires Flipped(s, t, at) && 'x' !in set_ && 'v' !in set_
    ensures n <= at && TrimStartOf(s, set_) == s[n..] && forall i :: 0 <= i < n ==> s[i] in set_
    ensures Flipped(TrimEndOf(TrimStartOf(s, set_), set_), TrimEndOf(TrimStartOf(t, set_), set_), at - n)
  {
    n := TrimStartOfStops(s, set_);
    assert n <= at;
    TrimStartOfIs(t, set_, n);
    FlippedTail(s, t, at, n);
    TrimEndOfFlipped(s[n..], t[n..], at - n, set_);
  }

  /** The marker of what is left after dropping `n` characters and some at the end. */
  lemma MarkerInside(s: string, t: string, k: nat, n: nat, x: string, y: string)
    requires MarkedAt(s, t, k) && n <= k && x <= s[n..] && Flipped(x, y, k + 1 - n)
    requires k + 3 - n <= |x|
    ensures MarkedAt(x, y, k - n)
  {
    var m := k - n;
    assert x[m..m + 3] == s[n..][m..m + 3] == s[k..k + 3];
    forall i | 0 <= i < m ensures x[i] != '[' {
      assert x[i] == s[n..][i] == s[n + i];
    }
  }

  lemma MarkerIsFlip(s: string, t: string, k: nat)
    requires MarkedAt(s, t, k)
    ensures Flipped(s, t, k + 1) && s[k] == '[' && s[k + 2] == ']'
  {
    assert s[k..k + 3][0] == s[k] && s[k..k + 3][1] == s[k + 1] && s[k..k + 3][2] == s[k + 2];
  }

  /** A character that is not trimmed at the end stays. */
  lemma {:induction false} TrimEndOfKeeps(s: string, set_: string, i: nat)
    requires i < |s| && s[i] !in set_
    ensures |TrimEndOf(s, set_)| > i
  {
    if s[|s| - 1] in set_ {
      TrimEndOfKeeps(s[..|s| - 1], set_, i);
    }
  }

  lemma MarkerTrims(s: string, t: string, k: nat) returns (m: nat)
    requires MarkedAt(s, t, k)
    ensures MarkedAt(Trim(s), Trim(t), m)
  {
    MarkerIsFlip(s, t, k);
    var n := TrimFlipped(s, t, k + 1);
    assert n <= k;
    TrimEndIsPrefix(s[n..]);
    assert s[n..][k + 2 - n] == s[k + 2];
    KeepsNonSpace(s[n..], k + 2 - n);
    MarkerInside(s, t, k, n, Trim(s), Trim(t));
    m := k - n;
  }

  lemma MarkerUnticks(s: string, t: string, k: nat) returns (m: nat)
    requires MarkedAt(s, t, k)
    ensures MarkedAt(TrimEndOf(TrimStartOf(s, "`"), "`"), TrimEndOf(TrimStartOf(t, "`"), "`"), m)
  {
    MarkerIsFlip(s, t, k);
    var n := TrimOfFlipped(s, t, k + 1, "`");
    assert n <= k;
    TrimEndOfIsPrefix(s[n..], "`");
    assert s[n..][k + 2 - n] == s[k + 2];
    TrimEndOfKeeps(s[n..], "`", k + 2 - n);
    MarkerInside(s, t, k, n, TrimEndOf(TrimStartOf(s, "`"), "`"), TrimEndOf(TrimStartOf(t, "`"), "`"));
    m := k - n;
  }

  /** The marked status cell says `[v]`. */
  lemma StatusFlipped(s: string, t: string, k: nat)
    requires MarkedAt(s, t, k) && "[x]" <= StatusText(s)
    ensures "[v]" <= StatusText(t)
  {
    var k1 := MarkerTrims(s, t, k);
    var k2 := MarkerUnticks(Trim(s), Trim(t), k1);
    var x, y := TrimEndOf(TrimStartOf(Trim(s), "`"), "`"), TrimEndOf(TrimStartOf(Trim(t), "`"), "`");
    var k3 := MarkerTrims(x, y, k2);
    assert StatusText(s)[0] == '[';
    assert k3 == 0;
    assert StatusText(t)[..3] == ['[', 'v', ']'] by {
      MarkerIsFlip(StatusText(s), StatusText(t), 0);
    }
  }

  /** The first bracket of `s` opens an `[x]` at `k`. */
  predicate MarkerAt(s: string, k: nat) {
    k + 3 <= |s| && s[k..k + 3] == "[x]" && forall i :: 0 <= i < k ==> s[i] != '['
  }

  lemma MarkerOutside(s: string, n: nat, x: string, m: nat)
    requires n <= |s| && x <= s[n..] && MarkerAt(x, m) && forall i :: 0 <= i < n ==> s[i] != '['
    ensures MarkerAt(s, n + m)
  {
    assert x[m..m + 3] == s[n..][m..m + 3] == s[n + m..n + m + 3];
    forall i | 0 <= i < n + m ensures s[i] != '[' {
      if i >= n {
        assert s[i] == s[n..][i - n] == x[i - n];
      }
    }
  }

  lemma {:induction false} TrimStartDrops(s: string) returns (n: nat)
    ensures n <= |s| && TrimStart(s) == s[n..] && forall i :: 0 <= i < n ==> IsWhitespace(s[i])
  {
    if s != [] && IsWhitespace(s[0]) {
      n := TrimStartDrops(s[1..]);
      n := n + 1;
      assert s[1..][n - 1..] == s[n..];
    } else {
      n := 0;
    }
  }

  lemma MarkerBeforeTrim(s: string, m: nat) returns (k: nat)
    requires MarkerAt(Trim(s), m)
    ensures MarkerAt(s, k)
  {
    var n := TrimStartDrops(s);
    TrimEndIsPrefix(s[n..]);
    MarkerOutside(s, n, Trim(s), m);
    k := n + m;
  }

  /** A status cell that begins with `[x]` has its first bracket there. */
  lemma StatusMarker(cell: string) returns (k: nat)
    requires "[x]" <= StatusText(cell)
    ensures MarkerAt(cell, k)
  {
    var x := Trim(cell);
    var y := TrimEndOf(TrimStartOf(x, "`"), "`");
    assert StatusText(cell)[..3] == "[x]" && StatusText(cell)[0..3] == "[x]";
    var m := MarkerBeforeTrim(y, 0);
    var n := TrimStartOfStops(x, "`");
    TrimEndOfIsPrefix(x[n..], "`");
    MarkerOutside(x, n, y, m);
    k := MarkerBeforeTrim(cell, n + m);
  }

  lemma MarkerFound(s: string, k: nat)
    requires MarkerAt(s, k)
    ensures Find(s, "[x]") == Some(k) && MarkedAt(s, s[k + 1 := 'v'], k)
  {
    assert s[k..][..3] == s[k..k + 3];
    FirstIsAt(s, k);
  }

  // ---- The cell inside the row --------------------------------------------------------------

  lemma {:induction false} FirstPiece(s: string, sep: char)
    ensures Split(s, sep)[0] <= s && sep !in Split(s, sep)[0]
    ensures |Split(s, sep)[0]| < |s| ==> s[|Split(s, sep)[0]|] == sep
  {
    if s != [] && s[0] != sep {
      FirstPiece(s[1..], sep);
    }
  }

  /** A needle without the separator that `s` begins with is in its first piece. */
  lemma NeedleInFirst(s: string, needle: string, sep: char)
    requires needle <= s && sep !in needle
    ensures needle <= Split(s, sep)[0]
  {
    FirstPiece(s, sep);
    assert forall i :: 0 <= i < |needle| ==> s[i] != sep;
  }

  lemma SplitNonSep(c: char, s: string, sep: char)
    requires c != sep
    ensures Split([c] + s, sep) == [[c] + Split(s, sep)[0]] + Split(s, sep)[1..]
  {
    assert ([c] + s)[1..] == s;
  }

  lemma SplitSep(s: string, sep: char)
    ensures Split([sep] + s, sep) == [[]] + Split(s, sep)
  {
    assert ([sep] + s)[1..] == s;
  }

  lemma FindLater(c: char, s: string, needle: string)
    requires !(needle <= [c] + s)
    ensures Find([c] + s, needle) == if Find(s, needle).Some? then Some(Find(s, needle).value + 1) else None
  {
    assert ([c] + s)[1..] == s;
  }

  /** `s` with a `v` two characters into the place of its first needle. */
  function Flip(s: string, at: nat): string
    requires at + 1 < |s|
  {
    s[at + 1 := 'v']
  }

  lemma FlipCons(c: char, s: string, at: nat)
    requires at + 1 < |s|
    ensures Flip([c] + s, at + 1) == [c] + Flip(s, at)
  {
  }

  /** Piece `q` is the first to hold the needle, at `k`. */
  predicate FirstHeld(pieces: seq<string>, needle: string, q: nat, k: nat) {
    && q < |pieces| && Find(pieces[q], needle) == Some(k)
    && forall i :: 0 <= i < q ==> Find(pieces[i], needle).None?
  }

  lemma HeldAfterBar(below: seq<string>, needle: string, q: nat, k: nat)
    requires needle != [] && FirstHeld([[]] + below, needle, q, k)
    ensures q > 0 && FirstHeld(below, needle, q - 1, k)
  {
    forall i | 0 <= i < q - 1 ensures Find(below[i], needle).None? {
      assert below[i] == ([[]] + below)[i + 1];
    }
  }

  lemma HeldAfterChar(c: char, below: seq<string>, needle: string, q: nat, k: nat)
    requires below != [] && FirstHeld([[c] + below[0]] + below[1..], needle, q, k) && !(needle <= [c] + below[0])
    ensures q == 0 ==> k > 0
    ensures FirstHeld(below, needle, q, if q == 0 then k - 1 else k)
  {
    FindLater(c, below[0], needle);
    var pieces := [[c] + below[0]] + below[1..];
    forall i | 0 <= i < q ensures Find(below[i], needle).None? {
      assert pieces[0] == [c] + below[0] && (i > 0 ==> below[i] == pieces[i]);
    }
  }

  /** A `v` in the first needle of the text is one in piece `q`, at `k`. */
  predicate FlipsPiece(s: string, needle: string, q: nat, k: nat, at: nat) {
    && Find(s, needle) == Some(at) && at + 1 < |s| && q < |Split(s, '|')| && k + 1 < |Split(s, '|')[q]|
    && Split(Flip(s, at), '|') == Split(s, '|')[q := Flip(Split(s, '|')[q], k)]
  }

  /** The first needle of the text is the first needle of the first piece that holds one. */
  lemma {:induction false} PieceFlipped(s: string, needle: string, q: nat, k: nat) returns (at: nat)
    requires |needle| >= 2 && '|' !in needle && FirstHeld(Split(s, '|'), needle, q, k)
    ensures FlipsPiece(s, needle, q, k, at)
    decreases |s|, 2
  {
    assert s != [];
    if needle <= s {
      NeedleInFirst(s, needle, '|');
      at := FirstFlipped(s, needle, q, k);
    } else {
      assert s == [s[0]] + s[1..];
      at := LaterFlipped(s[0], s[1..], needle, q, k);
    }
  }

  lemma {:induction false} LaterFlipped(c: char, rest: string, needle: string, q: nat, k: nat) returns (at: nat)
    requires |needle| >= 2 && '|' !in needle && FirstHeld(Split([c] + rest, '|'), needle, q, k)
    requires !(needle <= [c] + rest)
    ensures FlipsPiece([c] + rest, needle, q, k, at)
    decreases |rest| + 1, 1
  {
    if c == '|' {
      HeldAfterFirstBar(rest, needle, q, k);
      at := PieceFlipped(rest, needle, q - 1, k);
      AfterBar(rest, needle, q, k, at);
      at := at + 1;
    } else {
      at := CharFlipped(c, rest, needle, q, k);
    }
  }

  lemma {:induction false} CharFlipped(c: char, rest: string, needle: string, q: nat, k: nat) returns (at: nat)
    requires |needle| >= 2 && '|' !in needle && c != '|' && FirstHeld(Split([c] + rest, '|'), needle, q, k)
    requires !(needle <= [c] + rest)
    ensures FlipsPiece([c] + rest, needle, q, k, at)
    decreases |rest| + 1, 0
  {
    HeldInRest(c, rest, needle, q, k);
    var k' := if q == 0 then k - 1 else k;
    at := PieceFlipped(rest, needle, q, k');
    AfterChar(c, rest, needle, q, k', at);
    at := at + 1;
  }

  lemma HeldAfterFirstBar(rest: string, needle: string, q: nat, k: nat)
    requires needle != [] && FirstHeld(Split(['|'] + rest, '|'), needle, q, k)
    ensures q > 0 && FirstHeld(Split(rest, '|'), needle, q - 1, k)
  {
    SplitSep(rest, '|');
    HeldAfterBar(Split(rest, '|'), needle, q, k);
  }

  lemma HeldInRest(c: char, rest: string, needle: string, q: nat, k: nat)
    requires c != '|' && FirstHeld(Split([c] + rest, '|'), needle, q, k) && !(needle <= [c] + rest)
    ensures q == 0 ==> k > 0
    ensures FirstHeld(Split(rest, '|'), needle, q, if q == 0 then k - 1 else k)
  {
    var below := Split(rest, '|');
    SplitNonSep(c, rest, '|');
    FirstPiece([c] + rest, '|');
    assert [c] + below[0] <= [c] + rest;
    HeldAfterChar(c, below, needle, q, k);
  }

  lemma AfterBar(rest: string, needle: string, q: nat, k: nat, at: nat)
    requires q > 0 && FlipsPiece(rest, needle, q - 1, k, at) && !(needle <= ['|'] + rest)
    ensures FlipsPiece(['|'] + rest, needle, q, k, at + 1)
  {
    FindLater('|', rest, needle);
    SplitSep(rest, '|');
    SplitSep(Flip(rest, at), '|');
    FlipCons('|', rest, at);
  }

  lemma AfterChar(c: char, rest: string, needle: string, q: nat, k: nat, at: nat)
    requires c != '|' && FlipsPiece(rest, needle, q, k, at) && !(needle <= [c] + rest)
    ensures FlipsPiece([c] + rest, needle, q, if q == 0 then k + 1 else k, at + 1)
  {
    FindLater(c, rest, needle);
    SplitNonSep(c, rest, '|');
    SplitNonSep(c, Flip(rest, at), '|');
    FlipFirstPiece(c, Split(rest, '|'), q, k);
    FlipCons(c, rest, at);
  }

  lemma FlipFirstPiece(c: char, below: seq<string>, q: nat, k: nat)
    requires q < |below| && k + 1 < |below[q]|
    ensures
      var flipped := below[q := Flip(below[q], k)];
      var pieces := [[c] + below[0]] + below[1..];
      var k' := if q == 0 then k + 1 else k;
      k' + 1 < |pieces[q]| && [[c] + flipped[0]] + flipped[1..] == pieces[q := Flip(pieces[q], k')]
  {
    FlipCons(c, below[q], k);
  }

  lemma FirstFlipped(s: string, needle: string, q: nat, k: nat) returns (at: nat)
    requires |needle| >= 2 && '|' !in needle && FirstHeld(Split(s, '|'), needle, q, k)
    requires needle <= s && needle <= Split(s, '|')[0]
    ensures FlipsPiece(s, needle, q, k, at)
  {
    at := 0;
    assert q == 0 && k == 0 by {
      assert Find(Split(s, '|')[0], needle) == Some(0);
    }
    FirstTwo(s[0], s[1], s[2..]);
    assert s[0] == needle[0] && s[1] == needle[1];
    assert s == [s[0]] + ([s[1]] + s[2..]);
  }

  /** A change of the second character shows in the first piece. */
  lemma FirstTwo(c: char, d: char, rest: string)
    requires c != '|' && d != '|'
    ensures
      var s := [c] + ([d] + rest);
      |Split(s, '|')[0]| > 1 && Split(Flip(s, 0), '|') == Split(s, '|')[0 := Flip(Split(s, '|')[0], 0)]
  {
    var below := Split(rest, '|');
    assert Flip([c] + ([d] + rest), 0) == [c] + (['v'] + rest);
    SplitNonSep(d, rest, '|');
    SplitNonSep(c, [d] + rest, '|');
    SplitNonSep('v', rest, '|');
    SplitNonSep(c, ['v'] + rest, '|');
    TwoThenRest(c, d, below);
    TwoThenRest(c, 'v', below);
    assert Flip([c] + ([d] + below[0]), 0) == [c] + (['v'] + below[0]);
  }

  lemma TwoThenRest(c: char, d: char, below: seq<string>)
    requires below != []
    ensures
      var one := [[d] + below[0]] + below[1..];
      [[c] + one[0]] + one[1..] == below[0 := [c] + ([d] + below[0])]
  {
  }

  // ---- The row inside the line --------------------------------------------------------------

  lemma PartOf(s: string, n: nat, x: string, j: nat, m: nat)
    requires n <= |s| && x <= s[n..] && j + m <= |x|
    ensures n + j + m <= |s| && s[n + j..][..m] == x[j..][..m]
  {
    assert x[j..][..m] == x[j..j + m] == s[n..][j..j + m] == s[n + j..][..m];
  }

  lemma NoneBehind(s: string, n: nat, x: string, needle: string, p: nat, j: nat)
    requires needle != [] && n <= |s| && x <= s[n..] && Find(x, needle) == Some(p)
    requires j < n + p && forall i :: 0 <= i < n ==> s[i] != needle[0]
    ensures !(needle <= s[j..])
  {
    if j < n {
      assert s[j..][0] == s[j];
    } else {
      FindIsFirst(x, needle);
      PartOf(s, n, x, j - n, |needle|);
      assert !(needle <= x[j - n..]);
    }
  }

  /** The first needle is found behind `n` characters it does not begin with. */
  lemma FoundBehind(s: string, n: nat, x: string, needle: string, p: nat)
    requires needle != [] && n <= |s| && x <= s[n..] && Find(x, needle) == Some(p)
    requires forall i :: 0 <= i < n ==> s[i] != needle[0]
    ensures Find(s, needle) == Some(n + p)
  {
    StandsBehind(s, n, x, needle, p);
    forall j | 0 <= j < n + p ensures !(needle <= s[j..]) {
      NoneBehind(s, n, x, needle, p, j);
    }
    FindIs(s, needle, n + p);
  }

  lemma StandsBehind(s: string, n: nat, x: string, needle: string, p: nat)
    requires n <= |s| && x <= s[n..] && Find(x, needle) == Some(p)
    ensures n + p <= |s| && needle <= s[n + p..]
  {
    FindIsThere(x, needle, p);
    PartOf(s, n, x, p, |needle|);
  }

  lemma FoundInRow(s: string, needle: string, p: nat) returns (b: nat)
    requires Find(Inner(s), needle) == Some(p) && needle != [] && needle[0] != '|'
    ensures b <= |s| && TrimStartOf(s, "|") == s[b..] && Find(s, needle) == Some(b + p)
  {
    b := TrimStartOfStops(s, "|");
    TrimEndOfIsPrefix(s[b..], "|");
    FoundBehind(s, b, Inner(s), needle, p);
  }

  lemma FoundInLine(line: string, needle: string, p: nat) returns (off: nat)
    requires Find(Trim(line), needle) == Some(p) && needle != [] && !IsWhitespace(needle[0])
    ensures off <= |line| && TrimStart(line) == line[off..] && Find(line, needle) == Some(off + p)
  {
    off := TrimStartDrops(line);
    TrimEndIsPrefix(line[off..]);
    FoundBehind(line, off, Trim(line), needle, p);
  }

  lemma SameDrop(s: string, a: nat, b: nat)
    requires a <= |s| && b <= |s| && s[a..] == s[b..]
    ensures a == b
  {
    assert |s[a..]| == |s[b..]|;
  }

  /** Marking a line flips the place of its first `[x]`, also when seen in the trimmed line. */
  lemma LineFlipped(line: string, p: nat)
    requires Find(Trim(line), "[x]") == Some(p)
    ensures Find(line, "[x]").Some? && Flipped(Trim(line), Trim(Marked(line)), p + 1)
  {
    var off := FoundInLine(line, "[x]", p);
    MarkedIsFlipped(line);
    var n := TrimFlipped(line, Marked(line), off + p + 1);
    SameDrop(line, n, off);
  }

  lemma InnerFlipped(s: string, t: string, p: nat, b: nat)
    requires b <= |s| && TrimStartOf(s, "|") == s[b..] && Flipped(s, t, b + p + 1)
    ensures p + 1 < |Inner(s)| && Inner(t) == Flip(Inner(s), p)
  {
    var n := TrimOfFlipped(s, t, b + p + 1, "|");
    SameDrop(s, n, b);
  }

  lemma MarkedTrim(line: string, s: string, p: nat) returns (t: string)
    requires s == Trim(line) && Find(s, "[x]") == Some(p)
    ensures Find(line, "[x]").Some? && t == Trim(Marked(line)) && Flipped(s, t, p + 1)
  {
    LineFlipped(line, p);
    t := Trim(Marked(line));
  }

  /** The same, seen between the bars of a row. */
  lemma RowFlipped(line: string, s: string, p: nat) returns (t: string, at: nat)
    requires s == Trim(line) && Find(Inner(s), "[x]") == Some(p)
    ensures Find(line, "[x]").Some? && t == Trim(Marked(line)) && Flipped(s, t, at)
    ensures p + 1 < |Inner(s)| && Inner(t) == Flip(Inner(s), p)
  {
    var b := FoundInRow(s, "[x]", p);
    t := MarkedTrim(line, s, b + p);
    at := b + p + 1;
    InnerFlipped(s, t, p, b);
  }

  // ---- What the marked row is read as -------------------------------------------------------

  lemma {:induction false} StatusCellStays(cells: seq<string>, q: nat, c: string)
    requires FirstStatusCell(cells) == Some(q) && ParseStatusCell(c).Some?
    ensures FirstStatusCell(cells[q := c]) == Some(q)
  {
    if q > 0 {
      StatusCellStays(cells[1..], q - 1, c);
      assert cells[q := c][1..] == cells[1..][q - 1 := c];
    }
  }

  lemma {:induction false} DescriptionStays(cells: seq<string>, from: nat, q: nat, c: string)
    requires q < |cells|
    ensures DescriptionCells(cells[q := c], from, q) == DescriptionCells(cells, from, q)
    decreases |cells| - from
  {
    if from < |cells| {
      DescriptionStays(cells, from + 1, q, c);
    }
  }

  /** A cell with a bracketed marker is no number, no rule and no head cell. */
  lemma MarkerCell(cell: string, k: nat)
    requires 0 < k < |cell| && (cell[k] == 'x' || cell[k] == 'v')
    ensures ParseUnsigned(cell, U32_MAX).None? && !IsRuleCell(cell) && ToLower(cell) != "id"
  {
    var digits := if cell[0] == '+' then cell[1..] else cell;
    assert digits[if cell[0] == '+' then k - 1 else k] == cell[k];
    assert cell[k] in digits && !IsDigit(cell[k]);
    assert cell[k] in cell;
    assert ToLower(cell)[k] == cell[k];
  }

  lemma RowIs(cells: seq<string>, q: nat, status: FeatureStatus)
    requires |cells| >= 3 && FirstStatusCell(cells) == Some(q) && ParseStatusCell(cells[q]) == Some(status)
    requires !IsRuleCell(cells[q]) && ToLower(cells[0]) != "id"
    ensures ReadRow(cells) == RowFeature(cells, q, status)
  {
    assert cells[q] in cells;
  }

  lemma RowWas(cells: seq<string>)
    requires ReadRow(cells).Some?
    ensures |cells| >= 3 && ToLower(cells[0]) != "id" && FirstStatusCell(cells).Some?
  {
  }

  /** Another status cell, and not in the title's place, changes the status alone. */
  lemma OtherStatusCell(cells: seq<string>, q: nat, c: string, k: nat)
    requires |cells| >= 3 && q < |cells| && q != 1 && RowFeature(cells, q, Done).Some?
    requires 0 < k < |cells[q]| && cells[q][k] == 'x' && c == cells[q][k := 'v']
    ensures RowFeature(cells[q := c], q, Verified) == Some(AsVerified(RowFeature(cells, q, Done).value))
  {
    DescriptionStays(cells, 2, q, c);
    assert cells[q := c][1..] == if q == 0 then cells[1..] else cells[1..][q - 1 := c];
    if q == 0 {
      MarkerCell(cells[q], k);
      MarkerCell(c, k);
    }
  }

  lemma TrimAllSet(pieces: seq<string>, q: nat, piece: string)
    requires q < |pieces|
    ensures TrimAll(pieces[q := piece]) == TrimAll(pieces)[q := Trim(piece)]
  {
  }

  lemma MarkedStatus(text: string, mark: string, status: FeatureStatus)
    requires (mark == "[x]" && status == Done) || (mark == "[v]" && status == Verified)
    requires mark <= text
    ensures ParseStatusMarker(text) == Some(status)
  {
    assert text[1] == mark[1];
  }

  lemma StatusOfTrimmed(cell: string)
    ensures ParseStatusCell(Trim(cell)) == ParseStatusMarker(StatusText(cell))
  {
    TrimTwice(cell);
  }

  /** The status cell before and after it is marked. */
  lemma CellFlipped(piece: string, k: nat) returns (m: nat)
    requires MarkerAt(piece, k) && "[x]" <= StatusText(piece)
    ensures MarkedAt(Trim(piece), Trim(Flip(piece, k)), m)
    ensures ParseStatusCell(Trim(piece)) == Some(Done) && ParseStatusCell(Trim(Flip(piece, k))) == Some(Verified)
  {
    MarkerFound(piece, k);
    m := MarkerTrims(piece, Flip(piece, k), k);
    StatusFlipped(piece, Flip(piece, k), k);
    MarkedStatus(StatusText(piece), "[x]", Done);
    MarkedStatus(StatusText(Flip(piece, k)), "[v]", Verified);
    StatusOfTrimmed(piece);
    StatusOfTrimmed(Flip(piece, k));
  }

  lemma RowEnds(s: string, t: string, at: nat)
    requires IsRow(s) && Flipped(s, t, at)
    ensures IsRow(t)
  {
    assert s[0] == '|' && s[|s| - 1] == s[|s| - 1..][0] == '|';
    assert t[0] == '|' && t[|t| - 1..] == [t[|t| - 1]];
  }

  /** Rows `s` and `t` differ in the marker of their status cell. */
  lemma RowVerified(s: string, t: string, q: nat, k: nat)
    requires DoneRow(s) && FirstStatusCell(TrimAll(RowPieces(s))) == Some(q)
    requires IsRow(t) && q < |RowPieces(s)| && MarkerAt(RowPieces(s)[q], k)
    requires RowPieces(t) == RowPieces(s)[q := Flip(RowPieces(s)[q], k)]
    ensures ParseTableFeatureLine(t) == Some(AsVerified(ParseTableFeatureLine(s).value))
  {
    var pieces := RowPieces(s);
    var cells, cell := TrimAll(pieces), Trim(Flip(pieces[q], k));
    RowWas(cells);
    var m := CellFlipped(pieces[q], k);
    MarkerIsFlip(cells[q], cell, m);
    TrimAllSet(pieces, q, Flip(pieces[q], k));
    StatusCellStays(cells, q, cell);
    MarkerCell(cells[q], m + 1);
    MarkerCell(cell, m + 1);
    RowIs(cells, q, Done);
    RowIs(cells[q := cell], q, Verified);
    OtherStatusCell(cells, q, cell, m + 1);
  }

  lemma ClassifyRow(line: string, g: PlanFeature)
    requires ParseTableFeatureLine(Trim(line)) == Some(g)
    ensures Classify(line).Body? && Classify(line).feature == Some(g)
  {
    TrimTwice(line);
    var s := Trim(line);
    assert "|" <= s && s[0] == '|';
    assert HashCount(s) == 0;
  }

  /** Marking a done table row makes it parse as the same feature, verified by the user. */
  lemma MarkedRowParses(line: string)
    requires DoneRow(Trim(line))
    ensures Classify(line).Body? && Classify(line).feature.Some? && Find(line, "[x]").Some?
    ensures
      var marked := Classify(Marked(line));
      marked.Body? && marked.feature == Some(AsVerified(Classify(line).feature.value))
  {
    var s := Trim(line);
    var pieces := RowPieces(s);
    var q := FirstStatusCell(TrimAll(pieces)).value;
    var k := StatusMarker(pieces[q]);
    MarkerFound(pieces[q], k);
    assert forall i :: 0 <= i < q ==> pieces[i] == pieces[..q][i];
    var at := PieceFlipped(Inner(s), "[x]", q, k);
    var t, e := RowFlipped(line, s, at);
    RowEnds(s, t, e);
    RowVerified(s, t, q, k);
    ClassifyRow(line, ParseTableFeatureLine(s).value);
    ClassifyRow(Marked(line), AsVerified(ParseTableFeatureLine(s).value));
  }

  // ---- The whole plan -----------------------------------------------------------------------

  /** Feature `k` of phase `p` verified by the user, and nothing else changed. */
  function Verify(phases: seq<PlanPhase>, p: nat, k: nat): seq<PlanPhase>
    requires ValidFeature(phases, p, k)
  {
    phases[p := phases[p].(features := phases[p].features[k := AsVerified(phases[p].features[k])])]
  }

  /** A scan that goes on as `st` does but for the status of one feature it has read. */
  ghost predicate Differs(st: Scan, st': Scan, p: nat, k: nat) {
    ValidFeature(st.phases, p, k) && st' == st.(phases := Verify(st.phases, p, k))
  }

  lemma LastVerified(phases: seq<PlanPhase>, f: PlanFeature)
    requires phases != []
    ensures
      var features := phases[|phases| - 1].features;
      var grown := OnLast(phases, features + [f]);
      && ValidFeature(grown, |phases| - 1, |features|)
      && OnLast(phases, features + [AsVerified(f)]) == Verify(grown, |phases| - 1, |features|)
      && grown[..|phases| - 1] == phases[..|phases| - 1]
  {
    var features := phases[|phases| - 1].features;
    assert features + [AsVerified(f)] == (features + [f])[|features| := AsVerified(f)];
  }

  lemma OnLastVerified(phases: seq<PlanPhase>, p: nat, k: nat, features: seq<PlanFeature>, features': seq<PlanFeature>)
    requires ValidFeature(phases, p, k)
    requires p == |phases| - 1 ==> k < |features| && features' == features[k := AsVerified(features[k])]
    requires p < |phases| - 1 ==> features' == features
    ensures ValidFeature(OnLast(phases, features), p, k)
    ensures OnLast(Verify(phases, p, k), features') == Verify(OnLast(phases, features), p, k)
  {
    var last := |phases| - 1;
    assert OnLast(phases, features) == phases[last := phases[last].(features := features)];
    assert OnLast(Verify(phases, p, k), features') == Verify(phases, p, k)[last := phases[last].(features := features')];
  }

  /** Text that continues the verified feature continues it as before. */
  lemma BodyKeepsVerified(st: Scan, st': Scan, p: nat, k: nat, line: PlanLine)
    requires Coherent(st) && Coherent(st') && Differs(st, st', p, k) && line.Body?
    ensures Differs(ScanBody(st, line), ScanBody(st', line), p, k)
  {
    if st.open && line.feature.Some? {
      FeatureKeepsVerified(st, st', p, k, line);
    } else if st.open && line.continues && st.cont {
      TextKeepsVerified(st, st', p, k, line);
    } else {
      assert ScanBody(st, line).phases == st.phases && ScanBody(st', line).phases == st'.phases;
    }
  }

  lemma FeatureKeepsVerified(st: Scan, st': Scan, p: nat, k: nat, line: PlanLine)
    requires Coherent(st) && Coherent(st') && Differs(st, st', p, k) && line.Body? && st.open && line.feature.Some?
    ensures Differs(ScanBody(st, line), ScanBody(st', line), p, k)
  {
    FeatureAfterVerified(st.phases, p, k, line.feature.value);
  }

  lemma TextKeepsVerified(st: Scan, st': Scan, p: nat, k: nat, line: PlanLine)
    requires Coherent(st) && Coherent(st') && Differs(st, st', p, k) && line.Body?
    requires st.open && line.feature.None? && line.continues && st.cont
    ensures Differs(ScanBody(st, line), ScanBody(st', line), p, k)
  {
    TextRead(st, line);
    TextRead(st', line);
    TextAfterVerified(st.phases, p, k, line.trimmed);
  }

  lemma FeatureAfterVerified(phases: seq<PlanPhase>, p: nat, k: nat, f: PlanFeature)
    requires ValidFeature(phases, p, k)
    ensures
      var last, verified := |phases| - 1, Verify(phases, p, k);
      var grown := OnLast(phases, phases[last].features + [f]);
      ValidFeature(grown, p, k) && OnLast(verified, verified[last].features + [f]) == Verify(grown, p, k)
  {
    var last, verified := |phases| - 1, Verify(phases, p, k);
    OnLastVerified(phases, p, k, phases[last].features + [f], verified[last].features + [f]);
  }

  lemma TextAfterVerified(phases: seq<PlanPhase>, p: nat, k: nat, text: string)
    requires ValidFeature(phases, p, k) && phases[|phases| - 1].features != []
    ensures |Verify(phases, p, k)| == |phases| && Verify(phases, p, k)[|phases| - 1].features != []
    ensures ValidFeature(WithText(phases, text), p, k)
    ensures WithText(Verify(phases, p, k), text) == Verify(WithText(phases, text), p, k)
  {
    if p == |phases| - 1 {
      TextAfterLast(phases, k, text);
    } else {
      TextAfterEarlier(phases, p, k, text);
    }
  }

  lemma TextAfterLast(phases: seq<PlanPhase>, k: nat, text: string)
    requires phases != [] && ValidFeature(phases, |phases| - 1, k)
    ensures
      var p := |phases| - 1;
      var verified := Verify(phases, p, k);
      && verified[p].features != [] && ValidFeature(WithText(phases, text), p, k)
      && WithText(verified, text) == Verify(WithText(phases, text), p, k)
  {
    var p := |phases| - 1;
    ContinuedVerified(phases[p].features, k, text);
    OnLastVerified(phases, p, k, Longer(phases[p].features, text), Longer(Verify(phases, p, k)[p].features, text));
  }

  lemma TextAfterEarlier(phases: seq<PlanPhase>, p: nat, k: nat, text: string)
    requires p < |phases| - 1 && ValidFeature(phases, p, k) && phases[|phases| - 1].features != []
    ensures Verify(phases, p, k)[|phases| - 1] == phases[|phases| - 1] && ValidFeature(WithText(phases, text), p, k)
    ensures WithText(Verify(phases, p, k), text) == Verify(WithText(phases, text), p, k)
  {
    var last, verified := |phases| - 1, Verify(phases, p, k);
    assert |verified| == |phases| && verified[last] == phases[last];
    var features := Longer(phases[last].features, text);
    assert WithText(verified, text) == OnLast(verified, features) && WithText(phases, text) == OnLast(phases, features);
    OnLastVerified(phases, p, k, features, features);
  }

  lemma ContinuedVerified(features: seq<PlanFeature>, k: nat, text: string)
    requires k < |features|
    ensures
      var verified, longer := features[k := AsVerified(features[k])], Longer(features, text);
      Longer(verified, text) == longer[k := AsVerified(longer[k])]
  {
    var verified, longer := features[k := AsVerified(features[k])], Longer(features, text);
    forall i | 0 <= i < |features| ensures Longer(verified, text)[i] == longer[k := AsVerified(longer[k])][i] {
      LongerAt(features, text, i);
      LongerAt(verified, text, i);
    }
  }

  lemma LongerAt(features: seq<PlanFeature>, text: string, i: nat)
    requires i < |features|
    ensures Longer(features, text)[i] == if i == |features| - 1 then Continued(features[i], text) else features[i]
  {
  }

  lemma LineKeepsVerified(st: Scan, st': Scan, p: nat, k: nat, line: PlanLine)
    requires Coherent(st) && Coherent(st') && Differs(st, st', p, k)
    ensures Differs(ScanLine(st, line), ScanLine(st', line), p, k)
  {
    if line.Body? {
      BodyKeepsVerified(st, st', p, k, line);
    }
  }

  lemma PhasesStay(st: Scan, line: PlanLine, p: nat)
    requires Coherent(st) && p < |st.phases|
    ensures p < |ScanLine(st, line).phases| && ScanLine(st, line).phases[..p] == st.phases[..p]
  {
  }

  /** Lines `i` and on are scanned alike whether line `i` is read as a feature or as that feature verified. */
  lemma {:induction false} ScanKeepsVerified(read: seq<PlanLine>, i: nat, line': PlanLine, p: nat, k: nat)
    requires i < |read| && ScanLines(read[..i]).open
    requires p == |ScanLines(read[..i]).phases| - 1 && k == |ScanLines(read[..i]).phases[p].features|
    requires read[i].Body? && read[i].feature.Some?
    requires line'.Body? && line'.feature == Some(AsVerified(read[i].feature.value))
    ensures Differs(ScanLines(read), ScanLines(read[i := line']), p, k)
    ensures ScanLines(read).phases[..p] == ScanLines(read[..i]).phases[..p]
    decreases |read|, 0
  {
    var front, last := read[..|read| - 1], read[|read| - 1];
    assert read == front + [last];
    if i == |front| {
      assert read[i := line'] == front + [line'] && read[..i] == front;
      LastLineVerified(front, last, line');
    } else {
      assert front[..i] == read[..i] && read[i := line'] == front[i := line'] + [last];
      EarlierLineVerified(front, last, i, line', p, k);
    }
  }

  lemma {:induction false} EarlierLineVerified(front: seq<PlanLine>, last: PlanLine, i: nat, line': PlanLine, p: nat, k: nat)
    requires i < |front| && ScanLines(front[..i]).open
    requires p == |ScanLines(front[..i]).phases| - 1 && k == |ScanLines(front[..i]).phases[p].features|
    requires front[i].Body? && front[i].feature.Some?
    requires line'.Body? && line'.feature == Some(AsVerified(front[i].feature.value))
    ensures Differs(ScanLines(front + [last]), ScanLines(front[i := line'] + [last]), p, k)
    ensures ScanLines(front + [last]).phases[..p] == ScanLines(front[..i]).phases[..p]
    decreases |front|, 1
  {
    ScanKeepsVerified(front, i, line', p, k);
    NextKeepsVerified(front, front[i := line'], last, p, k);
  }

  lemma LastLineVerified(front: seq<PlanLine>, last: PlanLine, last': PlanLine)
    requires ScanLines(front).open && last.Body? && last.feature.Some?
    requires last'.Body? && last'.feature == Some(AsVerified(last.feature.value))
    ensures
      var p := |ScanLines(front).phases| - 1;
      && Differs(ScanLines(front + [last]), ScanLines(front + [last']), p, |ScanLines(front).phases[p].features|)
      && ScanLines(front + [last]).phases[..p] == ScanLines(front).phases[..p]
  {
    ScanSnoc(front, last);
    ScanSnoc(front, last');
    VerifiedLine(ScanLines(front), last, last');
  }

  lemma NextKeepsVerified(front: seq<PlanLine>, front': seq<PlanLine>, last: PlanLine, p: nat, k: nat)
    requires Differs(ScanLines(front), ScanLines(front'), p, k)
    ensures Differs(ScanLines(front + [last]), ScanLines(front' + [last]), p, k)
    ensures ScanLines(front + [last]).phases[..p] == ScanLines(front).phases[..p]
  {
    ScanSnoc(front, last);
    ScanSnoc(front', last);
    LineKeepsVerified(ScanLines(front), ScanLines(front'), p, k, last);
    PhasesStay(ScanLines(front), last, p);
  }

  lemma VerifiedLine(st: Scan, line: PlanLine, line': PlanLine)
    requires Coherent(st) && st.open && line.Body? && line.feature.Some?
    requires line'.Body? && line'.feature == Some(AsVerified(line.feature.value))
    ensures
      var p := |st.phases| - 1;
      && Differs(ScanLine(st, line), ScanLine(st, line'), p, |st.phases[p].features|)
      && ScanLine(st, line).phases[..p] == st.phases[..p]
  {
    LastVerified(st.phases, line.feature.value);
  }

  lemma {:induction false} NonEmptyVerified(phases: seq<PlanPhase>, p: nat, k: nat)
    requires ValidFeature(phases, p, k)
    ensures
      var q := |NonEmpty(phases[..p])|;
      ValidFeature(NonEmpty(phases), q, k) && NonEmpty(Verify(phases, p, k)) == Verify(NonEmpty(phases), q, k)
  {
    var m := |phases| - 1;
    var phases' := Verify(phases, p, k);
    if p < m {
      NonEmptyVerified(phases[..m], p, k);
      assert phases[..m][..p] == phases[..p];
      assert phases'[..m] == Verify(phases[..m], p, k);
    } else {
      assert phases'[..m] == phases[..m];
    }
  }

  /** Whatever line is read as a feature of this title, it is the first with `[x]` and the title, and done. */
  predicate FoundAsDone(lines: seq<string>, title: string) {
    && Trim(title) != []
    && forall i: nat :: i < |lines| && Counted(Shapes(lines), i) && Shapes(lines)[i].feature.title == title ==>
         FirstMatch(lines, Trim(title)) == Some(i) && (DoneBullet(Trim(lines[i])) || DoneRow(Trim(lines[i])))
  }

  /** The line of a feature, and what the scan has read when it is reached. */
  lemma LineOf(lines: seq<string>, p: nat, k: nat) returns (i: nat)
    requires ValidFeature(ParsePlan(lines), p, k)
    ensures i < |lines| && Counted(Shapes(lines), i) && Shapes(lines)[i].feature.title == TitleAt(lines, p, k)
    ensures Classify(lines[i]).Body? && Classify(lines[i]).feature.Some? && ScanAll(lines[..i]).open
    ensures
      var before := ScanAll(lines[..i]).phases;
      |NonEmpty(before[..|before| - 1])| == p && |before[|before| - 1].features| == k
  {
    BareTitles(ParsePlan(lines), p, k);
    BareParseIsRows(lines);
    i := Locate(Shapes(lines), p, k);
    MapAt(LineShape, lines, i);
    MapPrefix(LineShape, lines, i);
    RowsMirrorScan(lines[..i]);
    BareBefore(ScanAll(lines[..i]).phases);
  }

  lemma BareBefore(before: seq<PlanPhase>)
    requires before != []
    ensures
      var bare, m := BarePhases(before), |before| - 1;
      |NonEmpty(bare[..m])| == |NonEmpty(before[..m])| && |bare[m].features| == |before[m].features|
  {
    var m := |before| - 1;
    assert BarePhases(before)[..m] == BarePhases(before[..m]);
    BareNonEmpty(before[..m]);
    assert BarePhases(before)[m] == BarePhase(before[m]);
  }

  /** Parsing after marking a feature returns the same plan with that feature verified by the user. */
  lemma VerifyReparses(lines: seq<string>, p: nat, k: nat)
    requires ValidFeature(ParsePlan(lines), p, k)
    requires FoundAsDone(lines, TitleAt(lines, p, k))
    ensures
      var r := MarkVerified(lines, TitleAt(lines, p, k));
      r.Some? && ParsePlan(r.value) == Verify(ParsePlan(lines), p, k)
  {
    var i := LineOf(lines, p, k);
    DoneLineParses(lines[i]);
    LineReplaced(lines, i, Marked(lines[i]), p, k);
  }

  lemma DoneLineParses(line: string)
    requires Classify(line).Body? && Classify(line).feature.Some? && (DoneBullet(Trim(line)) || DoneRow(Trim(line)))
    ensures Find(line, "[x]").Some?
    ensures
      var marked := Classify(Marked(line));
      marked.Body? && marked.feature == Some(AsVerified(Classify(line).feature.value))
  {
    if DoneBullet(Trim(line)) {
      MarkedLineParses(line);
    } else {
      MarkedRowParses(line);
    }
  }

  /** The plan with another line in place of the one of a feature, read as that feature verified. */
  lemma LineReplaced(lines: seq<string>, i: nat, line': string, p: nat, k: nat)
    requires i < |lines| && ScanAll(lines[..i]).open
    requires
      var before := ScanAll(lines[..i]).phases;
      |NonEmpty(before[..|before| - 1])| == p && |before[|before| - 1].features| == k
    requires Classify(lines[i]).Body? && Classify(lines[i]).feature.Some? && Classify(line').Body?
    requires Classify(line').feature == Some(AsVerified(Classify(lines[i]).feature.value))
    ensures ValidFeature(ParsePlan(lines), p, k) && ParsePlan(lines[i := line']) == Verify(ParsePlan(lines), p, k)
  {
    var q := |ScanAll(lines[..i]).phases| - 1;
    ScanIsOfLines(lines);
    ScanIsOfLines(lines[..i]);
    ScanIsOfLines(lines[i := line']);
    MapAt(Classify, lines, i);
    MapPrefix(Classify, lines, i);
    MapSet(Classify, lines, i, line');
    ScanKeepsVerified(Map(Classify, lines), i, Classify(line'), q, k);
    NonEmptyVerified(ScanAll(lines).phases, q, k);
  }

  lemma {:induction false} MapSet<T, U>(f: T -> U, s: seq<T>, i: nat, x: T)
    requires i < |s|
    ensures Map(f, s[i := x]) == Map(f, s)[i := f(x)]
  {
    var front := s[..|s| - 1];
    if i < |front| {
      MapSet(f, front, i, x);
      assert s[i := x][..|s| - 1] == front[i := x];
    } else {
      assert s[i := x][..|s| - 1] == front;
    }
  }
}
