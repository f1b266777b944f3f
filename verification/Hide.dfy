/**
 Hiding context under `.orrch/` and revealing it again (`crates/orrch-core/src/hide.rs`), over the contents of the
 project's files. Any file step may fail; a failing write leaves arbitrary contents.
 */
module Hide {
  import opened Options

  type Bytes = seq<bv8>

  datatype Name = Plan | Devlog | Inbox | Claude | Other(path: string)

  const FULLY_HIDDEN: seq<Name> := [Plan, Devlog, Inbox]

  /** The stub `@.orrch/CLAUDE.md` and a line feed, in bytes. */
  const STUB: Bytes := [
    0x40, 0x2E, 0x6F, 0x72, 0x72, 0x63, 0x68, 0x2F, 0x43, 0x4C, 0x41, 0x55, 0x44, 0x45, 0x2E, 0x6D, 0x64, 0x0A]

  /** The files at the project root, and those under `.orrch/`. */
  datatype Tree = Tree(root: map<Name, Bytes>, hidden: map<Name, Bytes>)

  /** Which bytes are UTF-8. The stub is. */
  type TextTest = Bytes -> bool

  /**
   Step number `at` of the call fails. A write that fails before it opens its file leaves the file as it was (`None`),
   one that fails later leaves any bytes in it; other failing steps change nothing. A failing read ends a call like a
   next step that fails and changes nothing, but for the root `CLAUDE.md`, which cannot be read at all if `Unreadable`:
   hiding then ends at once and revealing passes the file over.
   */
  datatype Fault = Fault(at: nat, leaves: Option<Bytes>) | Unreadable | NoFault

  /** A call under way: the steps tried so far, and whether it has ended with an error. */
  datatype Progress = Progress(tree: Tree, moved: seq<Name>, steps: nat, failed: bool)

  datatype Report = Report(moved: seq<Name>, stubWritten: bool, alreadyHidden: bool)

  predicate Fails(fault: Fault, step: nat) {
    fault.Fault? && fault.at == step
  }

  /** The files after a write to `name` that fails. */
  function Spoiled(files: map<Name, Bytes>, name: Name, fault: Fault): map<Name, Bytes> {
    if fault.Fault? && fault.leaves.Some? then files[name := fault.leaves.value] else files
  }

  function Without(files: map<Name, Bytes>, name: Name): map<Name, Bytes> {
    files - {name}
  }

  // ---- Hiding -------------------------------------------------------------------------------

  /** Moves one file under `.orrch/`; a copy already there must be the same. */
  function HideFile(p: Progress, name: Name, fault: Fault): Progress {
    var t := p.tree;
    if p.failed || name !in t.root then p
    else if name in t.hidden && t.root[name] != t.hidden[name] then p.(failed := true)
    else if Fails(fault, p.steps) then p.(steps := p.steps + 1, failed := true)
    else Progress(Tree(Without(t.root, name), t.hidden[name := t.root[name]]), p.moved + [name], p.steps + 1, false)
  }

  function HideFiles(p: Progress, n: nat, fault: Fault): Progress
    requires n <= |FULLY_HIDDEN|
  {
    if n == 0 then p else HideFile(HideFiles(p, n - 1, fault), FULLY_HIDDEN[n - 1], fault)
  }

  predicate ClaudeNeedsMove(t: Tree) {
    Claude in t.root && t.root[Claude] != STUB
  }

  /** The checks made before anything is changed. */
  predicate Refused(t: Tree, text: TextTest) {
    Claude in t.root &&
    (!text(t.root[Claude])
     || (t.root[Claude] != STUB && Claude in t.hidden
         && (!text(t.hidden[Claude]) || t.hidden[Claude] != t.root[Claude])))
  }

  /** Copies the body under `.orrch/`, then writes the stub over it. */
  function HideClaude(p: Progress, fault: Fault): Progress
    requires !p.failed ==> Claude in p.tree.root
  {
    if p.failed then p
    else
      var t, body := p.tree, p.tree.root[Claude];
      if Fails(fault, p.steps) then
        Progress(Tree(t.root, Spoiled(t.hidden, Claude, fault)), p.moved, p.steps + 1, true)
      else if Fails(fault, p.steps + 1) then
        Progress(Tree(Spoiled(t.root, Claude, fault), t.hidden[Claude := body]), p.moved, p.steps + 2, true)
      else
        Progress(Tree(t.root[Claude := STUB], t.hidden[Claude := body]), p.moved + [Claude], p.steps + 2, false)
  }

  lemma {:induction false} HideFilesKeepsClaude(p: Progress, n: nat, fault: Fault)
    requires n <= |FULLY_HIDDEN|
    ensures
      var q := HideFiles(p, n, fault);
      && (Claude in q.tree.root <==> Claude in p.tree.root)
      && (Claude in q.tree.hidden <==> Claude in p.tree.hidden)
      && (Claude in p.tree.root ==> q.tree.root[Claude] == p.tree.root[Claude])
      && (Claude in p.tree.hidden ==> q.tree.hidden[Claude] == p.tree.hidden[Claude])
  {
    if n > 0 {
      HideFilesKeepsClaude(p, n - 1, fault);
      assert FULLY_HIDDEN[n - 1] != Claude;
    }
  }

  function HideModel(t: Tree, text: TextTest, fault: Fault): Progress {
    var start := Progress(t, [], 0, false);
    if Refused(t, text) || (fault.Unreadable? && Claude in t.root) then start.(failed := true)
    else if Fails(fault, 0) then start.(steps := 1, failed := true)
    else
      HideFilesKeepsClaude(start.(steps := 1), 3, fault);
      var p := HideFiles(start.(steps := 1), 3, fault);
      if ClaudeNeedsMove(t) then HideClaude(p, fault) else p
  }

  // ---- Revealing ----------------------------------------------------------------------------

  function RevealFile(p: Progress, name: Name, fault: Fault): Progress {
    var t := p.tree;
    if p.failed || name !in t.hidden || name in t.root then p
    else if Fails(fault, p.steps) then p.(steps := p.steps + 1, failed := true)
    else Progress(Tree(t.root[name := t.hidden[name]], Without(t.hidden, name)), p.moved + [name], p.steps + 1, false)
  }

  function RevealFiles(p: Progress, n: nat, fault: Fault): Progress
    requires n <= |FULLY_HIDDEN|
  {
    if n == 0 then p else RevealFile(RevealFiles(p, n - 1, fault), FULLY_HIDDEN[n - 1], fault)
  }

  /** Writes the body over the stub, then removes the hidden copy. */
  function RevealClaude(p: Progress, text: TextTest, fault: Fault): Progress {
    var t := p.tree;
    if p.failed || Claude !in t.hidden || Claude !in t.root || fault.Unreadable? || t.root[Claude] != STUB then p
    else if !text(t.hidden[Claude]) then p.(failed := true)
    else if Fails(fault, p.steps) then
      Progress(Tree(Spoiled(t.root, Claude, fault), t.hidden), p.moved, p.steps + 1, true)
    else if Fails(fault, p.steps + 1) then
      Progress(Tree(t.root[Claude := t.hidden[Claude]], t.hidden), p.moved, p.steps + 2, true)
    else
      Progress(Tree(t.root[Claude := t.hidden[Claude]], Without(t.hidden, Claude)), p.moved + [Claude], p.steps + 2, false)
  }

  function RevealModel(t: Tree, text: TextTest, fault: Fault): Progress {
    RevealClaude(RevealFiles(Progress(t, [], 0, false), 3, fault), text, fault)
  }

  // ---- The source's calls -------------------------------------------------------------------

  class Project {
    var root: map<Name, Bytes>
    var hidden: map<Name, Bytes>
    /** File steps tried by the call under way. */
    var steps: nat

    constructor (t: Tree)
      ensures Contents() == t
    {
      root, hidden, steps := t.root, t.hidden, 0;
    }

    function Contents(): Tree
      reads this
    {
      Tree(root, hidden)
    }

    function Now(moved: seq<Name>, failed: bool): Progress
      reads this
    {
      Progress(Contents(), moved, steps, failed)
    }

    /** Tries one file step. */
    method Try(fault: Fault) returns (ok: bool)
      modifies this`steps
      ensures steps == old(steps) + 1 && ok == !Fails(fault, old(steps))
    {
      ok := !Fails(fault, steps);
      steps := steps + 1;
    }

    method MoveFiles(fault: Fault) returns (moved: seq<Name>, failed: bool)
      modifies this
      ensures Now(moved, failed) == HideFiles(old(Now([], false)), 3, fault)
    {
      moved, failed := [], false;
      ghost var start := Now([], false);
      for i := 0 to |FULLY_HIDDEN|
        invariant !failed && Now(moved, false) == HideFiles(start, i, fault)
      {
        var name := FULLY_HIDDEN[i];
        ghost var before := Now(moved, false);
        if name in root {
          if name in hidden {
            if root[name] == hidden[name] {
              var ok := Try(fault);
              if !ok {
                failed := true;
              } else {
                root := root - {name};
                assert hidden[name := before.tree.root[name]] == hidden;
                moved := moved + [name];
              }
            } else {
              failed := true;
            }
          } else {
            var ok := Try(fault);
            if !ok {
              failed := true;
            } else {
              hidden := hidden[name := root[name]];
              root := root - {name};
              moved := moved + [name];
            }
          }
        }
        assert Now(moved, failed) == HideFile(before, name, fault);
        if failed {
          FailedStays(start, i + 1, 3, fault);
          return;
        }
      }
    }

    method StubClaude(fault: Fault) returns (failed: bool)
      requires Claude in root
      modifies this
      ensures failed == HideClaude(old(Now([], false)), fault).failed
      ensures Contents() == HideClaude(old(Now([], false)), fault).tree
    {
      var body := root[Claude];
      var ok := Try(fault);
      hidden := if ok then hidden[Claude := body] else Spoiled(hidden, Claude, fault);
      if !ok {
        return true;
      }
      ok := Try(fault);
      root := if ok then root[Claude := STUB] else Spoiled(root, Claude, fault);
      failed := !ok;
    }

    method HideContext(text: TextTest, fault: Fault) returns (report: Option<Report>)
      requires text(STUB)
      modifies this
      ensures Contents() == HideModel(old(Contents()), text, fault).tree
      ensures report.None? == HideModel(old(Contents()), text, fault).failed
      ensures report.Some? ==>
        var moved := HideModel(old(Contents()), text, fault).moved;
        report.value == Report(moved, ClaudeNeedsMove(old(Contents())), moved == [])
    {
      steps := 0;
      var claudeNeedsMove := Claude in root;
      if Claude in root {
        if fault.Unreadable? || !text(root[Claude]) {
          return None;
        }
        claudeNeedsMove := root[Claude] != STUB;
      }
      if claudeNeedsMove && Claude in hidden {
        if !text(hidden[Claude]) || hidden[Claude] != root[Claude] {
          return None;
        }
      }
      var ok := Try(fault);
      if !ok {
        return None;
      }
      HideFilesKeepsClaude(Now([], false), 3, fault);
      var moved, failed := MoveFiles(fault);
      if failed {
        return None;
      }
      if claudeNeedsMove {
        failed := StubClaude(fault);
        if failed {
          return None;
        }
        moved := moved + [Claude];
      }
      report := Some(Report(moved, claudeNeedsMove, moved == []));
    }

    method ReturnFiles(fault: Fault) returns (moved: seq<Name>, failed: bool)
      modifies this
      ensures Now(moved, failed) == RevealFiles(old(Now([], false)), 3, fault)
    {
      moved, failed := [], false;
      ghost var start := Now([], false);
      for i := 0 to |FULLY_HIDDEN|
        invariant !failed && Now(moved, false) == RevealFiles(start, i, fault)
      {
        var name := FULLY_HIDDEN[i];
        ghost var before := Now(moved, false);
        if name in hidden && name !in root {
          var ok := Try(fault);
          if !ok {
            failed := true;
          } else {
            root := root[name := hidden[name]];
            hidden := hidden - {name};
            moved := moved + [name];
          }
        }
        assert Now(moved, failed) == RevealFile(before, name, fault);
        if failed {
          FailedRevealStays(start, i + 1, 3, fault);
          return;
        }
      }
    }

    method RevealContext(text: TextTest, fault: Fault) returns (report: Option<Report>)
      requires text(STUB)
      modifies this
      ensures Contents() == RevealModel(old(Contents()), text, fault).tree
      ensures report.None? == RevealModel(old(Contents()), text, fault).failed
      ensures report.Some? ==>
        var moved := RevealModel(old(Contents()), text, fault).moved;
        report.value == Report(moved, false, moved == [])
    {
      steps := 0;
      var moved, failed := ReturnFiles(fault);
      if failed {
        return None;
      }
      if Claude in hidden && Claude in root && !fault.Unreadable? && root[Claude] == STUB {
        if !text(hidden[Claude]) {
          return None;
        }
        var ok := Try(fault);
        root := if ok then root[Claude := hidden[Claude]] else Spoiled(root, Claude, fault);
        if !ok {
          return None;
        }
        ok := Try(fault);
        if !ok {
          return None;
        }
        hidden := hidden - {Claude};
        moved := moved + [Claude];
      }
      report := Some(Report(moved, false, moved == []));
    }
  }

  lemma {:induction false} FailedStays(p: Progress, n: nat, m: nat, fault: Fault)
    requires n <= m <= |FULLY_HIDDEN| && HideFiles(p, n, fault).failed
    ensures HideFiles(p, m, fault) == HideFiles(p, n, fault)
  {
    if n < m {
      FailedStays(p, n, m - 1, fault);
    }
  }

  lemma {:induction false} FailedRevealStays(p: Progress, n: nat, m: nat, fault: Fault)
    requires n <= m <= |FULLY_HIDDEN| && RevealFiles(p, n, fault).failed
    ensures RevealFiles(p, m, fault) == RevealFiles(p, n, fault)
  {
    if n < m {
      FailedRevealStays(p, n, m - 1, fault);
    }
  }

  // ---- Nothing is lost ----------------------------------------------------------------------

  /** The body is still at the root or under `.orrch/`, under its own name. */
  predicate Present(t: Tree, name: Name, body: Bytes) {
    (name in t.root && t.root[name] == body) || (name in t.hidden && t.hidden[name] == body)
  }

  lemma {:induction false} HideFilesLoseNothing(p: Progress, n: nat, fault: Fault, name: Name, body: Bytes)
    requires n <= |FULLY_HIDDEN| && Present(p.tree, name, body)
    ensures Present(HideFiles(p, n, fault).tree, name, body)
  {
    if n > 0 {
      HideFilesLoseNothing(p, n - 1, fault, name, body);
    }
  }

  lemma {:induction false} RevealFilesLoseNothing(p: Progress, n: nat, fault: Fault, name: Name, body: Bytes)
    requires n <= |FULLY_HIDDEN| && Present(p.tree, name, body)
    ensures Present(RevealFiles(p, n, fault).tree, name, body)
  {
    if n > 0 {
      RevealFilesLoseNothing(p, n - 1, fault, name, body);
    }
  }

  datatype Call = HideCall(fault: Fault) | RevealCall(fault: Fault)

  function Calls(t: Tree, text: TextTest, calls: seq<Call>): Tree {
    if calls == [] then t
    else
      var before, call := Calls(t, text, calls[..|calls| - 1]), calls[|calls| - 1];
      match call
      case HideCall(fault) => HideModel(before, text, fault).tree
      case RevealCall(fault) => RevealModel(before, text, fault).tree
  }

  lemma HideLosesNothing(t: Tree, text: TextTest, fault: Fault, name: Name, body: Bytes)
    requires Present(t, name, body) && (name == Claude ==> body != STUB)
    ensures Present(HideModel(t, text, fault).tree, name, body)
  {
    var start := Progress(t, [], 1, false);
    HideFilesLoseNothing(start, 3, fault, name, body);
    HideFilesKeepsClaude(start, 3, fault);
    var p := HideFiles(start, 3, fault);
    if ClaudeNeedsMove(t) && !Refused(t, text) {
      StubLosesNothing(p, fault, name, body);
    }
  }

  lemma StubLosesNothing(p: Progress, fault: Fault, name: Name, body: Bytes)
    requires Claude in p.tree.root && Present(p.tree, name, body)
    requires Claude in p.tree.hidden ==> p.tree.hidden[Claude] == p.tree.root[Claude]
    ensures Present(HideClaude(p, fault).tree, name, body)
  {
  }

  lemma RevealLosesNothing(t: Tree, text: TextTest, fault: Fault, name: Name, body: Bytes)
    requires Present(t, name, body) && (name == Claude ==> body != STUB)
    ensures Present(RevealModel(t, text, fault).tree, name, body)
  {
    RevealFilesLoseNothing(Progress(t, [], 0, false), 3, fault, name, body);
  }

  /** After any hide and reveal calls, each ended by any fault or none, every body but the stub is still there. */
  lemma {:induction false} NothingIsLost(t: Tree, text: TextTest, calls: seq<Call>, name: Name, body: Bytes)
    requires Present(t, name, body) && (name == Claude ==> body != STUB)
    ensures Present(Calls(t, text, calls), name, body)
  {
    if calls != [] {
      var front := calls[..|calls| - 1];
      NothingIsLost(t, text, front, name, body);
      match calls[|calls| - 1] {
        case HideCall(fault) => HideLosesNothing(Calls(t, text, front), text, fault, name, body);
        case RevealCall(fault) => RevealLosesNothing(Calls(t, text, front), text, fault, name, body);
      }
    }
  }

  // ---- Undoing and repeating ----------------------------------------------------------------

  ghost predicate NothingHidden(t: Tree) {
    Claude !in t.hidden && forall i :: 0 <= i < |FULLY_HIDDEN| ==> FULLY_HIDDEN[i] !in t.hidden
  }

  function Get(files: map<Name, Bytes>, name: Name): Option<Bytes> {
    if name in files then Some(files[name]) else None
  }

  /** The first `n` of the fully hidden names. */
  predicate Among(name: Name, n: nat) {
    (n > 0 && name == Plan) || (n > 1 && name == Devlog) || (n > 2 && name == Inbox)
  }

  ghost predicate HiddenSoFar(t: Tree, now: Tree, n: nat) {
    forall name :: Get(now.root, name) == (if Among(name, n) then None else Get(t.root, name))
      && Get(now.hidden, name) == (if Among(name, n) then Get(t.root, name) else Get(t.hidden, name))
  }

  lemma {:induction false} HideFilesHides(p: Progress, n: nat)
    requires n <= |FULLY_HIDDEN| && !p.failed && NothingHidden(p.tree)
    ensures !HideFiles(p, n, NoFault).failed && HiddenSoFar(p.tree, HideFiles(p, n, NoFault).tree, n)
  {
    if n > 0 {
      HideFilesHides(p, n - 1);
      var before, after := HideFiles(p, n - 1, NoFault).tree, HideFiles(p, n, NoFault).tree;
      var it := FULLY_HIDDEN[n - 1];
      assert Get(before.hidden, it) == None && Get(before.root, it) == Get(p.tree.root, it);
      forall name
        ensures Get(after.root, name) == (if Among(name, n) then None else Get(p.tree.root, name))
          && Get(after.hidden, name) == (if Among(name, n) then Get(p.tree.root, name) else Get(p.tree.hidden, name))
      {
        assert Among(name, n) <==> Among(name, n - 1) || name == it;
        assert Get(before.root, name) == (if Among(name, n - 1) then None else Get(p.tree.root, name));
        assert Get(before.hidden, name)
            == (if Among(name, n - 1) then Get(p.tree.root, name) else Get(p.tree.hidden, name));
      }
    }
  }

  /** The fully hidden names are back at the root up to number `n`. */
  ghost predicate RevealedSoFar(t: Tree, now: Tree, n: nat) {
    forall name | name != Claude ::
      Get(now.root, name) == (if Among(name, 3) && !Among(name, n) then None else Get(t.root, name))
      && Get(now.hidden, name) == (if !Among(name, 3) then Get(t.hidden, name)
                                   else if Among(name, n) then None else Get(t.root, name))
  }

  lemma {:induction false} RevealFilesReveals(t: Tree, p: Progress, n: nat)
    requires n <= |FULLY_HIDDEN| && !p.failed && RevealedSoFar(t, p.tree, 0)
    ensures !RevealFiles(p, n, NoFault).failed && RevealedSoFar(t, RevealFiles(p, n, NoFault).tree, n)
    ensures Get(RevealFiles(p, n, NoFault).tree.root, Claude) == Get(p.tree.root, Claude)
    ensures Get(RevealFiles(p, n, NoFault).tree.hidden, Claude) == Get(p.tree.hidden, Claude)
  {
    if n > 0 {
      RevealFilesReveals(t, p, n - 1);
      var before, after := RevealFiles(p, n - 1, NoFault).tree, RevealFiles(p, n, NoFault).tree;
      var it := FULLY_HIDDEN[n - 1];
      assert Get(before.root, it) == None && Get(before.hidden, it) == Get(t.root, it);
      forall name | name != Claude
        ensures Get(after.root, name) == (if Among(name, 3) && !Among(name, n) then None else Get(t.root, name))
          && Get(after.hidden, name) == (if !Among(name, 3) then Get(t.hidden, name)
                                         else if Among(name, n) then None else Get(t.root, name))
      {
        assert Among(name, n) <==> Among(name, n - 1) || name == it;
        assert Get(before.root, name) == (if Among(name, 3) && !Among(name, n - 1) then None else Get(t.root, name));
        assert Get(before.hidden, name) == (if !Among(name, 3) then Get(t.hidden, name)
                                            else if Among(name, n - 1) then None else Get(t.root, name));
      }
    }
  }

  lemma SameFiles(a: map<Name, Bytes>, b: map<Name, Bytes>)
    requires forall name :: Get(a, name) == Get(b, name)
    ensures a == b
  {
    forall name ensures name in a <==> name in b {
      assert Get(a, name) == Get(b, name);
    }
    forall name | name in a ensures a[name] == b[name] {
      assert Get(a, name) == Get(b, name);
    }
  }

  /** Without hidden counterparts, revealing after hiding restores every file, also when hiding was refused. */
  lemma RevealUndoesHide(t: Tree, text: TextTest)
    requires NothingHidden(t) && text(STUB)
    ensures RevealModel(HideModel(t, text, NoFault).tree, text, NoFault).tree == t
  {
    var hid := HideModel(t, text, NoFault).tree;
    var back := RevealFiles(Progress(hid, [], 0, false), 3, NoFault);
    if Refused(t, text) {
      NothingToReveal(Progress(t, [], 0, false), 3);
    } else {
      var start := Progress(t, [], 1, false);
      HideFilesHides(start, 3);
      HideFilesKeepsClaude(start, 3, NoFault);
      var files := HideFiles(start, 3, NoFault).tree;
      forall name | name != Claude
        ensures Get(hid.root, name) == Get(files.root, name) && Get(hid.hidden, name) == Get(files.hidden, name)
      {
      }
      RevealFilesReveals(t, Progress(hid, [], 0, false), 3);
      var now := RevealModel(hid, text, NoFault).tree;
      forall name ensures Get(now.root, name) == Get(t.root, name) && Get(now.hidden, name) == Get(t.hidden, name) {
        if name != Claude {
          assert Get(now.root, name) == Get(back.tree.root, name);
          assert Get(now.hidden, name) == Get(back.tree.hidden, name);
          if Among(name, 3) {
            assert name in FULLY_HIDDEN;
          }
        }
      }
      SameFiles(now.root, t.root);
      SameFiles(now.hidden, t.hidden);
    }
  }

  lemma {:induction false} NothingToReveal(p: Progress, n: nat)
    requires n <= |FULLY_HIDDEN| && NothingHidden(p.tree)
    ensures RevealFiles(p, n, NoFault) == p
  {
    if n > 0 {
      NothingToReveal(p, n - 1);
    }
  }

  // ---- What hiding and revealing do ---------------------------------------------------------

  /** The stub, spelled out. */
  lemma StubText()
    ensures |STUB| == 18 && forall i :: 0 <= i < |STUB| ==> STUB[i] as int == "@.orrch/CLAUDE.md\n"[i] as int
  {
  }

  /** The first `n` of the fully hidden names that are at the root. */
  function AtRoot(t: Tree, n: nat): seq<Name> {
    if n == 0 then []
    else
      var name := if n == 1 then Plan else if n == 2 then Devlog else Inbox;
      AtRoot(t, n - 1) + if name in t.root then [name] else []
  }

  ghost predicate FilesHidden(t: Tree, now: Tree, n: nat) {
    forall name ::
      && Get(now.root, name) == (if Among(name, n) then None else Get(t.root, name))
      && Get(now.hidden, name) == (if Among(name, n) && name in t.root then Get(t.root, name) else Get(t.hidden, name))
  }

  lemma HideFileHides(t: Tree, p: Progress, n: nat, fault: Fault)
    requires 0 < n <= |FULLY_HIDDEN| && !p.failed && FilesHidden(t, p.tree, n - 1)
    requires !HideFile(p, FULLY_HIDDEN[n - 1], fault).failed
    ensures FilesHidden(t, HideFile(p, FULLY_HIDDEN[n - 1], fault).tree, n)
    ensures HideFile(p, FULLY_HIDDEN[n - 1], fault).moved
         == p.moved + if FULLY_HIDDEN[n - 1] in t.root then [FULLY_HIDDEN[n - 1]] else []
  {
    var it, after := FULLY_HIDDEN[n - 1], HideFile(p, FULLY_HIDDEN[n - 1], fault).tree;
    assert Get(p.tree.root, it) == Get(t.root, it) && Get(p.tree.hidden, it) == Get(t.hidden, it);
    forall name
      ensures Get(after.root, name) == (if Among(name, n) then None else Get(t.root, name))
      ensures Get(after.hidden, name)
           == (if Among(name, n) && name in t.root then Get(t.root, name) else Get(t.hidden, name))
    {
      assert Among(name, n) <==> Among(name, n - 1) || name == it;
      assert Get(p.tree.root, name) == (if Among(name, n - 1) then None else Get(t.root, name));
      assert Get(p.tree.hidden, name)
          == (if Among(name, n - 1) && name in t.root then Get(t.root, name) else Get(t.hidden, name));
    }
  }

  lemma {:induction false} HideFilesDone(p: Progress, n: nat, fault: Fault)
    requires n <= |FULLY_HIDDEN| && !HideFiles(p, n, fault).failed
    ensures !p.failed && FilesHidden(p.tree, HideFiles(p, n, fault).tree, n)
    ensures HideFiles(p, n, fault).moved == p.moved + AtRoot(p.tree, n)
  {
    if n > 0 {
      HideFilesDone(p, n - 1, fault);
      HideFileHides(p.tree, HideFiles(p, n - 1, fault), n, fault);
      assert FULLY_HIDDEN[n - 1] == if n == 1 then Plan else if n == 2 then Devlog else Inbox;
    }
  }

  /**
   A call that ends without an error has moved every one of the three files under `.orrch/`, has put the stub in the
   place of any other root `CLAUDE.md`, whose body is under `.orrch/` too, has touched nothing else, and reports
   exactly what it moved.
   */
  lemma HidingHides(t: Tree, text: TextTest, fault: Fault)
    requires !HideModel(t, text, fault).failed
    ensures
      var p := HideModel(t, text, fault);
      && (forall name | name != Claude ::
            if name in {Plan, Devlog, Inbox} then
              name !in p.tree.root && Get(p.tree.hidden, name) == Get(if name in t.root then t.root else t.hidden, name)
            else Get(p.tree.root, name) == Get(t.root, name) && Get(p.tree.hidden, name) == Get(t.hidden, name))
      && Get(p.tree.root, Claude) == (if Claude in t.root then Some(STUB) else None)
      && Get(p.tree.hidden, Claude)
         == Get(if Claude in t.root && t.root[Claude] != STUB then t.root else t.hidden, Claude)
      && p.moved == AtRoot(t, 3) + if Claude in t.root && t.root[Claude] != STUB then [Claude] else []
  {
    var start := Progress(t, [], 1, false);
    HideFilesKeepsClaude(start, 3, fault);
    HideFilesDone(start, 3, fault);
    var files, p := HideFiles(start, 3, fault), HideModel(t, text, fault);
    forall name | name != Claude
      ensures
        if name in {Plan, Devlog, Inbox} then
          name !in p.tree.root && Get(p.tree.hidden, name) == Get(if name in t.root then t.root else t.hidden, name)
        else Get(p.tree.root, name) == Get(t.root, name) && Get(p.tree.hidden, name) == Get(t.hidden, name)
    {
      if ClaudeNeedsMove(t) {
        StubLeavesOthers(files, fault, name);
      }
      HiddenAt(t, files.tree, name);
    }
    assert [] + AtRoot(t, 3) == AtRoot(t, 3);
  }

  lemma StubLeavesOthers(p: Progress, fault: Fault, name: Name)
    requires (!p.failed ==> Claude in p.tree.root) && name != Claude
    ensures
      var t := HideClaude(p, fault).tree;
      Get(t.root, name) == Get(p.tree.root, name) && Get(t.hidden, name) == Get(p.tree.hidden, name)
  {
  }

  lemma HiddenAt(t: Tree, now: Tree, name: Name)
    requires FilesHidden(t, now, 3) && name != Claude
    ensures
      if name in {Plan, Devlog, Inbox} then
        name !in now.root && Get(now.hidden, name) == Get(if name in t.root then t.root else t.hidden, name)
      else Get(now.root, name) == Get(t.root, name) && Get(now.hidden, name) == Get(t.hidden, name)
  {
    assert Get(now.root, name) == (if Among(name, 3) then None else Get(t.root, name));
  }

  /** What is there in two versions, one of them hidden already. */
  predicate Clash(t: Tree, name: Name) {
    name in t.root && name in t.hidden && t.root[name] != t.hidden[name]
  }

  lemma {:induction false} HideFilesFailExactlyWhen(p: Progress, n: nat)
    requires n <= |FULLY_HIDDEN| && !p.failed
    ensures
      HideFiles(p, n, NoFault).failed <==>
        (n > 0 && Clash(p.tree, Plan)) || (n > 1 && Clash(p.tree, Devlog)) || (n > 2 && Clash(p.tree, Inbox))
  {
    if n > 0 {
      HideFilesFailExactlyWhen(p, n - 1);
      if !HideFiles(p, n - 1, NoFault).failed {
        HideFilesDone(p, n - 1, NoFault);
        var before, it := HideFiles(p, n - 1, NoFault).tree, FULLY_HIDDEN[n - 1];
        assert Get(before.root, it) == Get(p.tree.root, it) && Get(before.hidden, it) == Get(p.tree.hidden, it);
      }
    }
  }

  /**
   Without faults, hiding fails exactly for a file that is there in two versions, or a `CLAUDE.md` that is no text:
   the one at the root, or the hidden one when the root holds another than the stub.
   */
  lemma HidingFailsExactlyWhen(t: Tree, text: TextTest)
    requires text(STUB)
    ensures
      HideModel(t, text, NoFault).failed <==>
        || Clash(t, Plan) || Clash(t, Devlog) || Clash(t, Inbox)
        || (Claude in t.root && !text(t.root[Claude]))
        || (Clash(t, Claude) && t.root[Claude] != STUB)
  {
    var start := Progress(t, [], 1, false);
    HideFilesKeepsClaude(start, 3, NoFault);
    HideFilesFailExactlyWhen(start, 3);
  }

  /** The first `n` of the fully hidden names that come back. */
  function ComingBack(t: Tree, n: nat): seq<Name> {
    if n == 0 then []
    else
      var name := if n == 1 then Plan else if n == 2 then Devlog else Inbox;
      ComingBack(t, n - 1) + if name in t.hidden && name !in t.root then [name] else []
  }

  ghost predicate FilesRevealed(t: Tree, now: Tree, n: nat) {
    forall name ::
      var back := Among(name, n) && name in t.hidden && name !in t.root;
      && Get(now.root, name) == Get(if back then t.hidden else t.root, name)
      && Get(now.hidden, name) == (if back then None else Get(t.hidden, name))
  }

  lemma RevealFileReveals(t: Tree, p: Progress, n: nat, fault: Fault)
    requires 0 < n <= |FULLY_HIDDEN| && !p.failed && FilesRevealed(t, p.tree, n - 1)
    requires !RevealFile(p, FULLY_HIDDEN[n - 1], fault).failed
    ensures FilesRevealed(t, RevealFile(p, FULLY_HIDDEN[n - 1], fault).tree, n)
    ensures
      var it := FULLY_HIDDEN[n - 1];
      RevealFile(p, it, fault).moved == p.moved + if it in t.hidden && it !in t.root then [it] else []
  {
    var it, after := FULLY_HIDDEN[n - 1], RevealFile(p, FULLY_HIDDEN[n - 1], fault).tree;
    assert Get(p.tree.root, it) == Get(t.root, it) && Get(p.tree.hidden, it) == Get(t.hidden, it);
    forall name
      ensures
        var back := Among(name, n) && name in t.hidden && name !in t.root;
        && Get(after.root, name) == Get(if back then t.hidden else t.root, name)
        && Get(after.hidden, name) == (if back then None else Get(t.hidden, name))
    {
      assert Among(name, n) <==> Among(name, n - 1) || name == it;
      var back := Among(name, n - 1) && name in t.hidden && name !in t.root;
      assert Get(p.tree.root, name) == Get(if back then t.hidden else t.root, name);
      assert Get(p.tree.hidden, name) == (if back then None else Get(t.hidden, name));
    }
  }

  lemma {:induction false} RevealFilesDone(p: Progress, n: nat, fault: Fault)
    requires n <= |FULLY_HIDDEN| && !RevealFiles(p, n, fault).failed
    ensures !p.failed && FilesRevealed(p.tree, RevealFiles(p, n, fault).tree, n)
    ensures RevealFiles(p, n, fault).moved == p.moved + ComingBack(p.tree, n)
  {
    if n > 0 {
      RevealFilesDone(p, n - 1, fault);
      RevealFileReveals(p.tree, RevealFiles(p, n - 1, fault), n, fault);
      assert FULLY_HIDDEN[n - 1] == if n == 1 then Plan else if n == 2 then Devlog else Inbox;
    }
  }

  /**
   A call that ends without an error has brought every hidden one of the three files back that is not at the root,
   has restored `CLAUDE.md` in the place of a readable stub, has touched nothing else, and reports exactly that.
   */
  lemma RevealingReveals(t: Tree, text: TextTest, fault: Fault)
    requires !RevealModel(t, text, fault).failed
    ensures
      var p := RevealModel(t, text, fault);
      var restored := Claude in t.hidden && Claude in t.root && t.root[Claude] == STUB && !fault.Unreadable?;
      && (forall name | name != Claude ::
            var back := name in {Plan, Devlog, Inbox} && name in t.hidden && name !in t.root;
            && Get(p.tree.root, name) == Get(if back then t.hidden else t.root, name)
            && Get(p.tree.hidden, name) == if back then None else Get(t.hidden, name))
      && Get(p.tree.root, Claude) == Get(if restored then t.hidden else t.root, Claude)
      && Get(p.tree.hidden, Claude) == (if restored then None else Get(t.hidden, Claude))
      && p.moved == ComingBack(t, 3) + if restored then [Claude] else []
  {
    var start := Progress(t, [], 0, false);
    RevealFilesDone(start, 3, fault);
    var files, p := RevealFiles(start, 3, fault), RevealModel(t, text, fault);
    RevealedAt(t, files.tree, Claude);
    RestoredIs(files, text, fault);
    forall name | name != Claude
      ensures
        var back := name in {Plan, Devlog, Inbox} && name in t.hidden && name !in t.root;
        && Get(p.tree.root, name) == Get(if back then t.hidden else t.root, name)
        && Get(p.tree.hidden, name) == if back then None else Get(t.hidden, name)
    {
      RestoreLeavesOthers(files, text, fault, name);
      RevealedAt(t, files.tree, name);
    }
    assert [] + ComingBack(t, 3) == ComingBack(t, 3);
  }

  lemma RestoreLeavesOthers(p: Progress, text: TextTest, fault: Fault, name: Name)
    requires name != Claude
    ensures
      var t := RevealClaude(p, text, fault).tree;
      Get(t.root, name) == Get(p.tree.root, name) && Get(t.hidden, name) == Get(p.tree.hidden, name)
  {
  }

  lemma RestoredIs(p: Progress, text: TextTest, fault: Fault)
    requires !RevealClaude(p, text, fault).failed
    ensures
      var t, q := p.tree, RevealClaude(p, text, fault);
      var restored := Claude in t.hidden && Claude in t.root && t.root[Claude] == STUB && !fault.Unreadable?;
      && Get(q.tree.root, Claude) == Get(if restored then t.hidden else t.root, Claude)
      && Get(q.tree.hidden, Claude) == (if restored then None else Get(t.hidden, Claude))
      && q.moved == p.moved + if restored then [Claude] else []
  {
  }

  lemma RevealedAt(t: Tree, now: Tree, name: Name)
    requires FilesRevealed(t, now, 3)
    ensures
      var back := name in {Plan, Devlog, Inbox} && name in t.hidden && name !in t.root;
      && Get(now.root, name) == Get(if back then t.hidden else t.root, name)
      && Get(now.hidden, name) == if back then None else Get(t.hidden, name)
  {
    assert Among(name, 3) <==> name in {Plan, Devlog, Inbox};
    var back := Among(name, 3) && name in t.hidden && name !in t.root;
    assert Get(now.root, name) == Get(if back then t.hidden else t.root, name);
  }

  predicate Away(t: Tree, n: nat)
    requires n <= |FULLY_HIDDEN|
  {
    n == 0 || (Away(t, n - 1) && FULLY_HIDDEN[n - 1] !in t.root)
  }

  predicate Clashes(t: Tree, name: Name) {
    name in t.root && name in t.hidden && t.root[name] != t.hidden[name]
  }

  lemma {:induction false} AwayStays(p: Progress, n: nat, it: Name)
    requires n <= |FULLY_HIDDEN| && Away(p.tree, n)
    ensures Away(HideFile(p, it, NoFault).tree, n)
  {
    if n > 0 {
      AwayStays(p, n - 1, it);
    }
  }

  /** Hiding stops only at a file that clashes; the ones before it are gone from the root. */
  lemma {:induction false} WhereHidingStops(p: Progress, n: nat) returns (k: nat)
    requires n <= |FULLY_HIDDEN| && !p.failed
    ensures
      var q := HideFiles(p, n, NoFault);
      k <= n && Away(q.tree, k) && if q.failed then k < n && Clashes(q.tree, FULLY_HIDDEN[k]) else k == n
  {
    k := 0;
    if n > 0 {
      var before := HideFiles(p, n - 1, NoFault);
      k := WhereHidingStops(p, n - 1);
      if !before.failed {
        AwayStays(before, k, FULLY_HIDDEN[k]);
        if !HideFiles(p, n, NoFault).failed {
          k := n;
        }
      }
    }
  }

  lemma {:induction false} AwayHidesNothing(p: Progress, n: nat)
    requires n <= |FULLY_HIDDEN| && Away(p.tree, n)
    ensures HideFiles(p, n, NoFault) == p
  {
    if n > 0 {
      AwayHidesNothing(p, n - 1);
    }
  }

  /** Hiding twice is hiding once, also when the first call ended with an error. */
  lemma HideIsIdempotent(t: Tree, text: TextTest)
    requires text(STUB)
    ensures
      var once := HideModel(t, text, NoFault);
      var twice := HideModel(once.tree, text, NoFault);
      twice.tree == once.tree && twice.failed == once.failed && twice.moved == []
  {
    var once, start := HideModel(t, text, NoFault), Progress(t, [], 1, false);
    if !Refused(t, text) {
      HideFilesKeepsClaude(start, 3, NoFault);
      var k := WhereHidingStops(start, 3);
      var files := HideFiles(start, 3, NoFault);
      var again := Progress(once.tree, [], 1, false);
      ClaudeAside(files.tree, once.tree, k);
      AwayHidesNothing(again, k);
      if files.failed {
        assert HideFiles(again, k + 1, NoFault) == again.(failed := true);
        FailedStays(again, k + 1, 3, NoFault);
      }
    }
  }

  lemma {:induction false} ClaudeAside(a: Tree, b: Tree, n: nat)
    requires n <= |FULLY_HIDDEN| && Away(a, n)
    requires forall name | name != Claude :: name in a.root <==> name in b.root
    ensures Away(b, n)
  {
    if n > 0 {
      ClaudeAside(a, b, n - 1);
    }
  }
}
