/**
 The two slug algorithms: the split, filter and join of `crates/orrch-core/src/loops.rs`, and the single pass of
 `crates/orrch-core/src/project.rs`. The pass keeps a flag that says whether a dash was just written; what holds after any
 prefix of the name ties the flag and the slug to the words between dashes, and so the two algorithms to each other.
 */
module Slug {
  import opened Text

  function DashUnless(c: char): char {
    if IsAlphanumeric(c) then LowerChar(c) else '-'
  }

  /** `map(...).collect()`, one character at a time. */
  function Mapped(name: string): string {
    if name == [] then [] else [DashUnless(name[0])] + Mapped(name[1..])
  }

  function NonEmpty(pieces: seq<string>): seq<string> {
    if pieces == [] then []
    else (if pieces[0] == [] then [] else [pieces[0]]) + NonEmpty(pieces[1..])
  }

  /** `loops.rs`: the non-empty pieces between dashes, joined by single dashes. */
  function Slugify(name: string): string {
    Join(NonEmpty(Split(Mapped(name), '-')), "-")
  }

  /** The slug and the `prev_dash` flag after one more character. */
  function PassStep(slug: string, prevDash: bool, c: char): (string, bool) {
    if IsAlphanumeric(c) then (slug + [LowerChar(c)], false)
    else if !prevDash then (slug + ['-'], true)
    else (slug, prevDash)
  }

  function OnePass(name: string): (string, bool) {
    if name == [] then ([], true)
    else
      var (slug, prevDash) := OnePass(name[..|name| - 1]);
      PassStep(slug, prevDash, name[|name| - 1])
  }

  // ---- One more character -------------------------------------------------------------------

  lemma {:induction false} MappedSnoc(s: string, c: char)
    ensures Mapped(s + [c]) == Mapped(s) + [DashUnless(c)]
  {
    if s == [] {
      assert s + [c] == [c] && Mapped([c][1..]) == [];
    } else {
      assert (s + [c])[1..] == s[1..] + [c];
      MappedSnoc(s[1..], c);
    }
  }

  /** The last piece of `Split`, and the ones before it. */
  function Tail(m: string): string {
    var pieces := Split(m, '-');
    pieces[|pieces| - 1]
  }

  function Front(m: string): seq<string> {
    var pieces := Split(m, '-');
    pieces[..|pieces| - 1]
  }

  lemma {:induction false} SplitDash(m: string)
    ensures Split(m + ['-'], '-') == Split(m, '-') + [[]]
  {
    if m == [] {
      assert m + ['-'] == ['-'] && ['-'][1..] == [];
    } else {
      assert (m + ['-'])[1..] == m[1..] + ['-'];
      SplitDash(m[1..]);
      var rest := Split(m[1..], '-');
      assert (rest + [[]])[0] == rest[0] && (rest + [[]])[1..] == rest[1..] + [[]];
    }
  }

  lemma {:induction false} SplitLetter(m: string, c: char)
    requires c != '-'
    ensures
      var pieces := Split(m, '-');
      Split(m + [c], '-') == pieces[..|pieces| - 1] + [pieces[|pieces| - 1] + [c]]
  {
    if m == [] {
      assert m + [c] == [c] && [c][1..] == [];
      assert Split([c], '-') == [[c] + []] + [[]][1..];
      assert [c] + [] == [] + [c];
    } else {
      assert (m + [c])[1..] == m[1..] + [c];
      SplitLetter(m[1..], c);
      var rest := Split(m[1..], '-');
      LongerLast(m[0], rest, c);
      assert (m + [c])[0] == m[0];
      assert Split(m, '-') == WithHead(m[0], rest);
      assert Split(m + [c], '-') == WithHead(m[0], Split(m[1..] + [c], '-'));
    }
  }

  function WithHead(first: char, pieces: seq<string>): (r: seq<string>)
    requires pieces != []
    ensures r != []
  {
    if first == '-' then [[]] + pieces else [[first] + pieces[0]] + pieces[1..]
  }

  /** Putting `first` before the first piece and `c` after the last one do not get in each other's way. */
  lemma LongerLast(first: char, pieces: seq<string>, c: char)
    requires pieces != []
    ensures
      var now := WithHead(first, pieces);
      WithHead(first, pieces[..|pieces| - 1] + [pieces[|pieces| - 1] + [c]])
        == now[..|now| - 1] + [now[|now| - 1] + [c]]
  {
    if |pieces| == 1 {
      assert [first] + (pieces[0] + [c]) == [first] + pieces[0] + [c];
    }
  }

  lemma SplitSnoc(m: string, c: char)
    ensures Front(m + [c]) == if c == '-' then Split(m, '-') else Front(m)
    ensures Tail(m + [c]) == if c == '-' then [] else Tail(m) + [c]
  {
    if c == '-' {
      SplitDash(m);
    } else {
      SplitLetter(m, c);
    }
  }

  lemma {:induction false} NonEmptySnoc(pieces: seq<string>, last: string)
    ensures NonEmpty(pieces + [last]) == NonEmpty(pieces) + if last == [] then [] else [last]
  {
    if pieces == [] {
      assert pieces + [last] == [last] && NonEmpty([last][1..]) == [];
    } else {
      var first, rest := pieces[0], pieces[1..];
      assert pieces + [last] == [first] + (rest + [last]) && pieces == [first] + rest;
      NonEmptyCons(first, rest);
      NonEmptyCons(first, rest + [last]);
      NonEmptySnoc(rest, last);
    }
  }

  lemma NonEmptyCons(first: string, rest: seq<string>)
    ensures NonEmpty([first] + rest) == (if first == [] then [] else [first]) + NonEmpty(rest)
  {
    assert ([first] + rest)[1..] == rest;
  }

  lemma {:induction false} JoinSnoc(words: seq<string>, last: string)
    requires words != []
    ensures Join(words + [last], "-") == Join(words, "-") + ("-" + last)
  {
    var all := words + [last];
    assert all[1..] == words[1..] + [last];
    if |words| == 1 {
      assert all[1..] == [last];
    } else {
      JoinSnoc(words[1..], last);
    }
  }

  function Words(name: string): seq<string> {
    NonEmpty(Split(Mapped(name), '-'))
  }

  lemma WordsOf(name: string)
    ensures Words(name) == NonEmpty(Front(Mapped(name))) + if Tail(Mapped(name)) == [] then [] else [Tail(Mapped(name))]
  {
    var pieces := Split(Mapped(name), '-');
    assert pieces == Front(Mapped(name)) + [Tail(Mapped(name))];
    NonEmptySnoc(Front(Mapped(name)), Tail(Mapped(name)));
  }

  /** The slug kept by the single pass: the words so far, and the dash written after the last one. */
  function PassSlug(words: seq<string>, open: bool): string {
    Join(words, "-") + if open && words != [] then "-" else ""
  }

  lemma JoinGrows(words: seq<string>, word: string, c: char)
    ensures Join(words + [word + [c]], "-") == Join(words + [word], "-") + [c]
  {
    if words == [] {
      assert words + [word + [c]] == [word + [c]] && words + [word] == [word];
    } else {
      JoinSnoc(words, word + [c]);
      JoinSnoc(words, word);
    }
  }

  lemma JoinNewWord(words: seq<string>, c: char)
    ensures Join(words + [[c]], "-") == PassSlug(words, true) + [c]
  {
    if words == [] {
      assert words + [[c]] == [[c]];
    } else {
      JoinSnoc(words, [c]);
    }
  }

  function WithTail(words: seq<string>, tail: string): seq<string> {
    if tail == [] then words else words + [tail]
  }

  /** One step of the pass, when `words` are complete and `tail` is the piece being read. */
  lemma PassOne(words: seq<string>, tail: string, c: char)
    ensures PassStep(PassSlug(WithTail(words, tail), tail == []), tail == [], c)
         == if IsAlphanumeric(c) then (PassSlug(WithTail(words, tail + [LowerChar(c)]), false), false)
            else (PassSlug(WithTail(words, tail), true), true)
  {
    if IsAlphanumeric(c) {
      if tail == [] {
        JoinNewWord(words, LowerChar(c));
        assert tail + [LowerChar(c)] == [LowerChar(c)];
      } else {
        JoinGrows(words, tail, LowerChar(c));
      }
      var longer := Join(words + [tail + [LowerChar(c)]], "-");
      assert longer + "" == longer;
    }
    var now := Join(WithTail(words, tail), "-");
    assert now + "" == now;
  }

  /** The flag says whether the last piece is still empty, and the slug is made of the pieces so far. */
  lemma {:induction false} PassSoFar(name: string)
    ensures OnePass(name) == (PassSlug(Words(name), Tail(Mapped(name)) == []), Tail(Mapped(name)) == [])
  {
    if name != [] {
      var front, c := name[..|name| - 1], name[|name| - 1];
      assert name == front + [c];
      PassSoFar(front);
      WordsOf(front);
      WordsGrow(front, c);
      var words, tail := NonEmpty(Front(Mapped(front))), Tail(Mapped(front));
      assert Words(front) == WithTail(words, tail);
      PassOne(words, tail, c);
    }
  }

  /** The words and the piece being read after one more character. */
  lemma WordsGrow(front: string, c: char)
    ensures
      var words, tail := NonEmpty(Front(Mapped(front))), Tail(Mapped(front));
      var tail' := if IsAlphanumeric(c) then tail + [LowerChar(c)] else [];
      && Tail(Mapped(front + [c])) == tail'
      && Words(front + [c]) == WithTail(words, if IsAlphanumeric(c) then tail' else tail)
  {
    MappedSnoc(front, c);
    SplitSnoc(Mapped(front), DashUnless(c));
    WordsOf(front);
    WordsOf(front + [c]);
  }

  // ---- What a slug looks like ---------------------------------------------------------------

  predicate SlugChar(c: char) {
    IsDigit(c) || 'a' <= c <= 'z'
  }

  predicate IsWord(word: string) {
    word != [] && forall i :: 0 <= i < |word| ==> SlugChar(word[i])
  }

  predicate AllWords(words: seq<string>) {
    forall i :: 0 <= i < |words| ==> IsWord(words[i])
  }

  /** Lower-case letters and digits, and single dashes between them. */
  predicate IsSlug(s: string) {
    && (forall i :: 0 <= i < |s| ==> SlugChar(s[i]) || s[i] == '-')
    && (forall i :: 0 <= i < |s| && s[i] == '-' ==> 0 < i < |s| - 1 && s[i + 1] != '-')
  }

  lemma {:induction false} PiecesAreWords(name: string)
    ensures forall i, j :: 0 <= i < |Split(Mapped(name), '-')| && 0 <= j < |Split(Mapped(name), '-')[i]| ==>
      SlugChar(Split(Mapped(name), '-')[i][j])
  {
    if name != [] {
      PiecesAreWords(name[1..]);
      var m := Mapped(name);
      assert m[1..] == Mapped(name[1..]);
      var rest := Split(m[1..], '-');
      assert Split(m, '-') == if m[0] == '-' then [[]] + rest else [[m[0]] + rest[0]] + rest[1..];
    }
  }

  lemma {:induction false} NonEmptyAreWords(pieces: seq<string>)
    requires forall i, j :: 0 <= i < |pieces| && 0 <= j < |pieces[i]| ==> SlugChar(pieces[i][j])
    ensures AllWords(NonEmpty(pieces))
  {
    if pieces != [] {
      assert forall j :: 0 <= j < |pieces[0]| ==> SlugChar(pieces[0][j]);
      assert forall i :: 0 <= i < |pieces[1..]| ==> pieces[1..][i] == pieces[i + 1];
      NonEmptyAreWords(pieces[1..]);
    }
  }

  lemma {:induction false} JoinIsSlug(words: seq<string>)
    requires AllWords(words)
    ensures IsSlug(Join(words, "-"))
    ensures words != [] ==> Join(words, "-") != [] && SlugChar(Join(words, "-")[0])
  {
    if |words| > 1 {
      assert AllWords(words[1..]);
      JoinIsSlug(words[1..]);
      assert IsWord(words[0]);
      var rest := Join(words[1..], "-");
      DashBetween(words[0], rest);
    } else if |words| == 1 {
      assert IsWord(words[0]);
    }
  }

  lemma DashBetween(word: string, rest: string)
    requires IsWord(word) && IsSlug(rest) && rest != [] && SlugChar(rest[0])
    ensures IsSlug(word + "-" + rest)
  {
    var s, k := word + "-" + rest, |word| + 1;
    assert forall i :: 0 <= i < |rest| ==> s[k + i] == rest[i];
    forall i | 0 <= i < |s| ensures SlugChar(s[i]) || s[i] == '-' {
      if i >= k {
        assert s[i] == rest[i - k];
      }
    }
    forall i | 0 <= i < |s| && s[i] == '-' ensures 0 < i < |s| - 1 && s[i + 1] != '-' {
      if i >= k {
        assert rest[i - k] == '-';
        assert s[i + 1] == rest[i - k + 1];
      } else {
        assert i == |word|;
      }
    }
  }

  /** Every result is a slug. */
  lemma SlugifyGivesSlugs(name: string)
    ensures IsSlug(Slugify(name))
    ensures Slugify(name) != [] ==> Slugify(name)[|Slugify(name)| - 1] != '-'
  {
    PiecesAreWords(name);
    NonEmptyAreWords(Split(Mapped(name), '-'));
    JoinIsSlug(Words(name));
  }

  // ---- The two algorithms agree -------------------------------------------------------------

  lemma OnePassIsSlug(name: string)
    ensures TrimEndOf(OnePass(name).0, "-") == Slugify(name)
  {
    PassSoFar(name);
    SlugifyGivesSlugs(name);
    var slug := Slugify(name);
    TrimLastDash(slug);
    assert OnePass(name).0 == slug + "" || OnePass(name).0 == slug + "-";
    assert slug + "" == slug;
  }

  lemma TrimLastDash(slug: string)
    requires slug != [] ==> slug[|slug| - 1] != '-'
    ensures TrimEndOf(slug, "-") == slug && TrimEndOf(slug + "-", "-") == slug
  {
    var s, dash: string := slug + "-", "-";
    assert s != [] && s[|s| - 1] == dash[0] && s[..|s| - 1] == slug;
    OneCharacterOf(s, dash);
    if slug != [] {
      assert slug[|slug| - 1] !in dash;
    }
  }

  lemma OneCharacterOf(s: string, set_: string)
    requires s != [] && s[|s| - 1] in set_
    ensures TrimEndOf(s, set_) == TrimEndOf(s[..|s| - 1], set_)
  {
  }

  lemma {:induction false} LeadingSpaceIsNoMatter(name: string)
    ensures Slugify(TrimStart(name)) == Slugify(name)
  {
    if name != [] && IsWhitespace(name[0]) {
      LeadingSpaceIsNoMatter(name[1..]);
      assert Mapped(name)[1..] == Mapped(name[1..]);
      var rest := Split(Mapped(name[1..]), '-');
      assert ([[]] + rest)[1..] == rest;
      assert NonEmpty([[]] + rest) == NonEmpty(rest);
    }
  }

  lemma {:induction false} TrailingSpaceIsNoMatter(name: string)
    ensures Slugify(TrimEnd(name)) == Slugify(name)
  {
    if name != [] && IsWhitespace(name[|name| - 1]) {
      var front, c := name[..|name| - 1], name[|name| - 1];
      TrailingSpaceIsNoMatter(front);
      assert name == front + [c];
      MappedSnoc(front, c);
      SplitSnoc(Mapped(front), '-');
      WordsOf(name);
      assert Words(name) == Words(front);
    }
  }

  /** `project.rs`: one pass over the trimmed name, then the trailing dashes are popped. */
  method SlugifyProjectName(name: string) returns (slug: string)
    ensures slug == Slugify(name)
  {
    slug := [];
    var prevDash := true;
    var trimmed := Trim(name);
    var i := 0;
    while i < |trimmed|
      invariant i <= |trimmed|
      invariant (slug, prevDash) == OnePass(trimmed[..i])
    {
      assert trimmed[..i + 1][..i] == trimmed[..i];
      if IsAlphanumeric(trimmed[i]) {
        slug := slug + [LowerChar(trimmed[i])];
        prevDash := false;
      } else if !prevDash {
        slug := slug + ['-'];
        prevDash := true;
      }
      i := i + 1;
    }
    assert trimmed[..i] == trimmed;
    while slug != [] && slug[|slug| - 1] == '-'
      invariant TrimEndOf(slug, "-") == TrimEndOf(OnePass(trimmed).0, "-")
      decreases |slug|
    {
      slug := slug[..|slug| - 1];
    }
    OnePassIsSlug(trimmed);
    LeadingSpaceIsNoMatter(name);
    TrailingSpaceIsNoMatter(TrimStart(name));
  }

  // ---- Slugs are the fixed points -----------------------------------------------------------

  lemma {:induction false} MappedSlug(s: string)
    requires forall i :: 0 <= i < |s| ==> SlugChar(s[i]) || s[i] == '-'
    ensures Mapped(s) == s
  {
    if s != [] {
      MappedSlug(s[1..]);
      assert s == [s[0]] + s[1..];
    }
  }

  lemma {:induction false} JoinUndoesSplit(s: string)
    ensures Join(Split(s, '-'), "-") == s
  {
    if s != [] {
      JoinUndoesSplit(s[1..]);
      var rest := Split(s[1..], '-');
      assert s == [s[0]] + s[1..];
      if s[0] == '-' {
        assert ([[]] + rest)[1..] == rest;
      } else if |rest| > 1 {
        assert ([[s[0]] + rest[0]] + rest[1..])[1..] == rest[1..];
      } else {
        assert rest == [rest[0]];
      }
    }
  }

  /** Without dashes at the ends or next to each other no piece is empty. */
  lemma {:induction false} NoEmptyPiece(s: string)
    requires s != [] && s[|s| - 1] != '-' && forall i :: 0 <= i < |s| - 1 && s[i] == '-' ==> s[i + 1] != '-'
    ensures forall i :: 0 < i < |Split(s, '-')| ==> Split(s, '-')[i] != []
    ensures s[0] != '-' ==> Split(s, '-')[0] != []
  {
    if |s| > 1 {
      var t := s[1..];
      assert forall i :: 0 <= i < |t| - 1 && t[i] == '-' ==> s[i + 1] == '-' && t[i + 1] == s[i + 2];
      NoEmptyPiece(t);
      assert t[0] == s[1];
    } else {
      assert s[1..] == [];
    }
  }

  lemma {:induction false} NonEmptyKeeps(pieces: seq<string>)
    requires forall i :: 0 <= i < |pieces| ==> pieces[i] != []
    ensures NonEmpty(pieces) == pieces
  {
    if pieces != [] {
      assert forall i :: 0 <= i < |pieces[1..]| ==> pieces[1..][i] == pieces[i + 1];
      NonEmptyKeeps(pieces[1..]);
    }
  }

  /** Exactly the slugs are left as they are, so making a slug twice is making it once. */
  lemma SlugsAreTheFixedPoints(s: string)
    ensures Slugify(s) == s <==> IsSlug(s)
    ensures Slugify(Slugify(s)) == Slugify(s)
  {
    SlugifyGivesSlugs(s);
    KeepsSlugs(Slugify(s));
    if IsSlug(s) {
      KeepsSlugs(s);
    }
  }

  lemma KeepsSlugs(s: string)
    requires IsSlug(s)
    ensures Slugify(s) == s
  {
    MappedSlug(s);
    JoinUndoesSplit(s);
    if s == [] {
      assert NonEmpty([[]][1..]) == [];
    } else {
      NoEmptyPiece(s);
      NonEmptyKeeps(Split(s, '-'));
    }
  }

  // ---- No letter or digit is lost -----------------------------------------------------------

  function LetterOf(c: char): string {
    if IsAlphanumeric(c) then [LowerChar(c)] else []
  }

  /** The letters and digits, lower-cased, in order. */
  function Letters(s: string): string {
    if s == [] then [] else LetterOf(s[0]) + Letters(s[1..])
  }

  lemma {:induction false} LettersConcat(a: string, b: string)
    ensures Letters(a + b) == Letters(a) + Letters(b)
  {
    if a == [] {
      assert a + b == b;
    } else {
      var c, rest := a[0], a[1..];
      assert a + b == [c] + (rest + b) && a == [c] + rest;
      LettersCons(c, rest);
      LettersCons(c, rest + b);
      LettersConcat(rest, b);
      assert LetterOf(c) + (Letters(rest) + Letters(b)) == LetterOf(c) + Letters(rest) + Letters(b);
    }
  }

  lemma LettersCons(c: char, s: string)
    ensures Letters([c] + s) == LetterOf(c) + Letters(s)
  {
    assert ([c] + s)[1..] == s;
  }

  lemma {:induction false} PassKeepsLetters(name: string)
    ensures Letters(OnePass(name).0) == Letters(name)
  {
    if name != [] {
      var front, c := name[..|name| - 1], name[|name| - 1];
      assert name == front + [c];
      PassKeepsLetters(front);
      LettersConcat(front, [c]);
      LettersConcat(OnePass(front).0, [DashUnless(c)]);
      assert [c][1..] == [] && [DashUnless(c)][1..] == [];
    }
  }

  /** A slug has the letters and digits of the name, in the same order. */
  lemma SlugKeepsLetters(name: string)
    ensures Letters(Slugify(name)) == Letters(name)
  {
    PassSoFar(name);
    PassKeepsLetters(name);
    LettersConcat(Slugify(name), "-");
    assert Letters("-"[1..]) == [];
    assert Slugify(name) + "" == Slugify(name);
  }

  // ---- The slug, word by word ---------------------------------------------------------------

  lemma {:induction false} MappedConcat(a: string, b: string)
    ensures Mapped(a + b) == Mapped(a) + Mapped(b)
  {
    if b == [] {
      assert a + b == a;
    } else {
      var front, c := b[..|b| - 1], b[|b| - 1];
      assert a + b == (a + front) + [c] && b == front + [c];
      MappedSnoc(a + front, c);
      MappedSnoc(front, c);
      MappedConcat(a, front);
    }
  }

  lemma {:induction false} NonEmptyConcat(a: seq<string>, b: seq<string>)
    ensures NonEmpty(a + b) == NonEmpty(a) + NonEmpty(b)
  {
    if a == [] {
      assert a + b == b;
    } else {
      assert a + b == [a[0]] + (a[1..] + b) && a == [a[0]] + a[1..];
      NonEmptyCons(a[0], a[1..] + b);
      NonEmptyConcat(a[1..], b);
    }
  }

  lemma {:induction false} SplitBoth(x: string, y: string)
    ensures Split(x + "-" + y, '-') == Split(x, '-') + Split(y, '-')
  {
    if x == [] {
      assert x + "-" + y == ['-'] + y;
      SplitCons('-', y);
    } else {
      var rest := x[1..];
      assert x + "-" + y == [x[0]] + (rest + "-" + y) && x == [x[0]] + rest;
      SplitCons(x[0], rest + "-" + y);
      SplitCons(x[0], rest);
      SplitBoth(rest, y);
      HeadGoesLeft(x[0], Split(rest, '-'), Split(y, '-'));
    }
  }

  lemma SplitCons(c: char, rest: string)
    ensures Split([c] + rest, '-') == WithHead(c, Split(rest, '-'))
  {
    assert ([c] + rest)[1..] == rest;
  }

  lemma HeadGoesLeft(c: char, left: seq<string>, right: seq<string>)
    requires left != []
    ensures WithHead(c, left + right) == WithHead(c, left) + right
  {
    assert (left + right)[0] == left[0] && (left + right)[1..] == left[1..] + right;
  }

  lemma {:induction false} JoinBoth(a: seq<string>, b: seq<string>)
    requires a != [] && b != []
    ensures Join(a + b, "-") == Join(a, "-") + "-" + Join(b, "-")
  {
    if |a| == 1 {
      assert (a + b)[1..] == b;
    } else {
      assert (a + b)[1..] == a[1..] + b;
      JoinBoth(a[1..], b);
    }
  }

  lemma NoWordsNoSlug(name: string)
    ensures Words(name) == [] <==> Slugify(name) == []
  {
    PiecesAreWords(name);
    NonEmptyAreWords(Split(Mapped(name), '-'));
    JoinIsSlug(Words(name));
  }

  /** Anything but a letter or a digit parts the slug: a dash between the slugs of both sides, if neither is empty. */
  lemma BreakPartsSlug(left: string, c: char, right: string)
    requires c !in DIGITS && c !in UPPER_CASE && c !in LOWER_CASE
    ensures
      var (a, b) := (Slugify(left), Slugify(right));
      Slugify(left + [c] + right) == if a == "" then b else if b == "" then a else a + "-" + b
  {
    CaseFolding(c, c);
    MappedConcat(left + [c], right);
    MappedSnoc(left, c);
    SplitBoth(Mapped(left), Mapped(right));
    NonEmptyConcat(Split(Mapped(left), '-'), Split(Mapped(right), '-'));
    NoWordsNoSlug(left);
    NoWordsNoSlug(right);
    var a, b := Words(left), Words(right);
    if a == [] {
      assert a + b == b;
    } else if b == [] {
      assert a + b == a;
    } else {
      JoinBoth(a, b);
    }
  }

  /** One character of a word: digits and small letters stay, capitals turn small, and there is nothing in between. */
  lemma {:induction false} WordIsLowered(word: string)
    requires forall c :: c in word ==> c in DIGITS || c in UPPER_CASE || c in LOWER_CASE
    ensures |Slugify(word)| == |word|
    ensures forall i :: 0 <= i < |word| ==>
      if word[i] in UPPER_CASE then Slugify(word)[i] in LOWER_CASE && UpperChar(Slugify(word)[i]) == word[i]
      else Slugify(word)[i] == word[i]
  {
    MappedWord(word);
    assert Mapped(word) == ToLower(word) && '-' !in ToLower(word);
    SplitNone(ToLower(word), '-');
    assert NonEmpty([ToLower(word)][1..]) == [];
    forall i | 0 <= i < |word|
      ensures word[i] in UPPER_CASE ==> LowerChar(word[i]) in LOWER_CASE && UpperChar(LowerChar(word[i])) == word[i]
      ensures word[i] !in UPPER_CASE ==> LowerChar(word[i]) == word[i]
    {
      CaseFolding(word[i], word[i]);
    }
  }

  lemma {:induction false} MappedWord(word: string)
    requires forall c :: c in word ==> c in DIGITS || c in UPPER_CASE || c in LOWER_CASE
    ensures Mapped(word) == ToLower(word) && '-' !in ToLower(word)
  {
    if word != [] {
      MappedWord(word[1..]);
      CaseFolding(word[0], word[0]);
      Alphabets(LowerChar(word[0]));
      assert word == [word[0]] + word[1..];
      assert ToLower(word) == [LowerChar(word[0])] + ToLower(word[1..]);
    }
  }
}
