/**
 The crash-safe move of the loop registry to its canonical place (`crates/orrch-core/src/context_migrate.rs`) and its
 reader (`loops.rs`). Any file step may fail, and the process may die between any two of them.
 */
module ContextMigrate {
  import opened Options

  type Bytes = seq<bv8>

  /** The three files the migration touches. */
  datatype Files = Files(legacy: Option<Bytes>, canonical: Option<Bytes>, backup: Option<Bytes>)

  /**
   What one run meets. A copy leaves `copyLeaves` at the canonical path (nothing, a part, or anything else) whatever
   it reports; `steps` is the number of file steps done before the process dies.
   */
  datatype Faults = Faults(
    resolves: bool, dirMade: bool, copyLeaves: Option<Bytes>, copyOk: bool, readable: bool, removeOk: bool,
    renameOk: bool, steps: nat)

  /** A copy that reports success has written some file. */
  ghost predicate Legal(f: Faults) {
    f.copyOk ==> f.copyLeaves.Some?
  }

  datatype Outcome = Moved | Conflict | Skipped | NothingToDo | Died

  // The file steps, in the order a run takes them.
  const DIR_STEP: nat := 1
  const COPY_STEP: nat := 2
  const LAST_STEP: nat := 3
  const REPORT_STEP: nat := 4

  predicate Differ(d: Files, f: Faults) {
    !(f.readable && d.legacy.Some? && d.canonical.Some? && d.legacy == d.canonical)
  }

  /** Renames legacy to the backup path, if the step succeeds. */
  function Renamed(d: Files, f: Faults): Files {
    if f.renameOk then Files(None, d.canonical, d.legacy) else d
  }

  /** The run that finds a canonical file: the rename an interrupted run left undone. */
  function FinishModel(d: Files, f: Faults): (Files, Outcome) {
    if d.legacy.None? then (d, Skipped)
    else if Differ(d, f) then (d, Conflict)
    else if d.backup.Some? then (d, Skipped)
    else if f.steps < 1 then (d, Died)
    else (Renamed(d, f), Skipped)
  }

  /** The run after a copy that reported success. */
  function VerifyModel(d: Files, f: Faults): (Files, Outcome) {
    if Differ(d, f) then
      if f.steps < LAST_STEP then (d, Died)
      else (if f.removeOk then d.(canonical := None) else d, Conflict)
    else if d.backup.Some? then (d, Skipped)
    else if f.steps < LAST_STEP then (d, Died)
    else if f.renameOk then (Renamed(d, f), if f.steps < REPORT_STEP then Died else Moved)
    else (d, Skipped)
  }

  function CopyModel(d: Files, f: Faults): (Files, Outcome) {
    if f.steps < DIR_STEP then (d, Died)
    else if !f.dirMade then (d, Skipped)
    else if f.steps < COPY_STEP then (d.(canonical := f.copyLeaves), Died)
    else if !f.copyOk then (d.(canonical := f.copyLeaves), Skipped)
    else VerifyModel(d.(canonical := f.copyLeaves), f)
  }

  function MigrateModel(d: Files, f: Faults): (Files, Outcome) {
    if !f.resolves then (d, Skipped)
    else if d.canonical.Some? then FinishModel(d, f)
    else if d.legacy.None? then (d, NothingToDo)
    else CopyModel(d, f)
  }

  datatype Place = Legacy | Canonical

  /** The disk, and the report a run fills in. */
  class Migration {
    var legacy: Option<Bytes>
    var canonical: Option<Bytes>
    var backup: Option<Bytes>
    var moved: seq<(Place, Place)>
    var conflicts: seq<(Place, Place)>
    var skipped: nat

    constructor (d: Files)
      ensures Disk() == d
      ensures moved == [] && conflicts == [] && skipped == 0
    {
      legacy, canonical, backup := d.legacy, d.canonical, d.backup;
      moved, conflicts, skipped := [], [], 0;
    }

    function Disk(): Files
      reads this
    {
      Files(legacy, canonical, backup)
    }

    /** The report holds exactly this outcome; a run that died reports nothing. */
    predicate Reports(o: Outcome)
      reads this
    {
      && moved == (if o == Moved then [(Legacy, Canonical)] else [])
      && conflicts == (if o == Conflict then [(Legacy, Canonical)] else [])
      && skipped == (if o == Skipped then 1 else 0)
    }

    method FinishRename(f: Faults) returns (died: bool)
      requires canonical.Some? && legacy.Some? && !Differ(Disk(), f) && backup.None?
      modifies this`legacy, this`backup
      ensures died == (f.steps < 1)
      ensures Disk() == if died then old(Disk()) else Renamed(old(Disk()), f)
    {
      died := f.steps < 1;
      if !died && f.renameOk {
        backup := legacy;
        legacy := None;
      }
    }

    method CopyAndVerify(f: Faults) returns (died: bool)
      requires canonical.None? && legacy.Some? && Legal(f) && Reports(NothingToDo)
      modifies this
      ensures (Disk(), if died then Died else ReportedOutcome()) == CopyModel(old(Disk()), f)
      ensures Reports(CopyModel(old(Disk()), f).1)
    {
      died := true;
      if f.steps < DIR_STEP {
        return;
      }
      if !f.dirMade {
        skipped := skipped + 1;
        died := false;
        return;
      }
      canonical := f.copyLeaves;
      if f.steps < COPY_STEP {
        return;
      }
      if !f.copyOk {
        skipped := skipped + 1;
        died := false;
        return;
      }
      if Differ(Disk(), f) {
        if f.steps < LAST_STEP {
          return;
        }
        if f.removeOk {
          canonical := None;
        }
        conflicts := conflicts + [(Legacy, Canonical)];
        died := false;
        return;
      }
      if backup.Some? {
        skipped := skipped + 1;
        died := false;
        return;
      }
      if f.steps < LAST_STEP {
        return;
      }
      if !f.renameOk {
        skipped := skipped + 1;
        died := false;
        return;
      }
      backup := legacy;
      legacy := None;
      if f.steps < REPORT_STEP {
        return;
      }
      died := false;
      moved := moved + [(Legacy, Canonical)];
    }

    function ReportedOutcome(): Outcome
      reads this
    {
      if moved != [] then Moved else if conflicts != [] then Conflict else if skipped > 0 then Skipped else NothingToDo
    }

    /** One run of `migrate_context`. */
    method MigrateContext(f: Faults)
      requires Legal(f) && Reports(NothingToDo)
      modifies this
      ensures Disk() == MigrateModel(old(Disk()), f).0
      ensures Reports(MigrateModel(old(Disk()), f).1)
    {
      if !f.resolves {
        skipped := skipped + 1;
        return;
      }
      if canonical.Some? {
        if legacy.Some? && Differ(Disk(), f) {
          conflicts := conflicts + [(Legacy, Canonical)];
        } else if legacy.Some? {
          if backup.None? {
            var died := FinishRename(f);
            if died {
              return;
            }
          }
          skipped := skipped + 1;
        } else {
          skipped := skipped + 1;
        }
        return;
      }
      if legacy.None? {
        return;
      }
      var _ := CopyAndVerify(f);
    }
  }

  // ---- Safety over any number of interrupted runs -------------------------------------------

  /** The disk after these runs, with no other writer in between. */
  function Runs(d: Files, runs: seq<Faults>): Files {
    if runs == [] then d else MigrateModel(Runs(d, runs[..|runs| - 1]), runs[|runs| - 1]).0
  }

  predicate Kept(before: Files, now: Files) {
    && (before.canonical.Some? ==> now.canonical == before.canonical)
    && (before.backup.Some? ==> now.backup == before.backup)
    && (before.legacy.None? ==> now == before)
    && (before.legacy.Some? ==>
          now.legacy == before.legacy || (now == Files(None, before.legacy, before.legacy) && before.backup.None?))
  }

  /**
   However many runs are cut short, an existing canonical or backup file is never changed, the legacy bytes stay at
   the legacy path or at the backup path, and they leave the legacy path only when canonical holds them too.
   */
  lemma {:induction false} NothingIsLost(d: Files, runs: seq<Faults>)
    ensures Kept(d, Runs(d, runs))
  {
    if runs != [] {
      NothingIsLost(d, runs[..|runs| - 1]);
    }
  }

  /** The bytes `load_loops` decodes: canonical if it exists, else legacy. */
  function RegistryBytes(d: Files): Option<Bytes> {
    if d.canonical.Some? then d.canonical else d.legacy
  }

  /** The copy left something other than the legacy bytes and nothing took it away again. */
  predicate LeavesBadCopy(d: Files, f: Faults) {
    && f.resolves && d.canonical.None? && d.legacy.Some?
    && f.steps >= DIR_STEP && f.dirMade
    && f.copyLeaves.Some? && f.copyLeaves != d.legacy
    && (f.copyOk && f.steps >= LAST_STEP ==> !f.removeOk)
  }

  /** One run changes what readers get exactly when it leaves a bad copy behind. */
  lemma ReadersSeeAChangeExactlyWhen(d: Files, f: Faults)
    ensures RegistryBytes(MigrateModel(d, f).0) != RegistryBytes(d) <==> LeavesBadCopy(d, f)
  {
    if f.resolves && d.canonical.None? && d.legacy.Some? && f.steps >= DIR_STEP && f.dirMade {
      var copied := d.(canonical := f.copyLeaves);
      if f.steps >= COPY_STEP && f.copyOk {
        assert MigrateModel(d, f) == VerifyModel(copied, f);
        assert Differ(copied, f) || copied.canonical == copied.legacy;
      }
    }
  }

  /** A process that dies after a partial copy: readers now get one byte of two. */
  lemma ReadersCanSeeAChange()
    ensures
      var d := Files(Some([1, 2]), None, None);
      var f := Faults(true, true, Some([1]), true, true, true, true, 1);
      && Legal(f) && MigrateModel(d, f) == (Files(Some([1, 2]), Some([1]), None), Died)
      && RegistryBytes(d) == Some([1, 2]) && RegistryBytes(MigrateModel(d, f).0) == Some([1])
  {
  }

  predicate AnyBadCopy(d: Files, runs: seq<Faults>) {
    runs != [] &&
    (AnyBadCopy(d, runs[..|runs| - 1]) || LeavesBadCopy(Runs(d, runs[..|runs| - 1]), runs[|runs| - 1]))
  }

  /** A canonical file that differs from legacy stays: every later run is a conflict or skipped, and moves nothing. */
  lemma {:induction false} BadCopyIsPermanent(d: Files, runs: seq<Faults>)
    requires d.legacy.Some? && d.canonical.Some? && d.canonical != d.legacy
    ensures Runs(d, runs) == d
    ensures forall f :: MigrateModel(Runs(d, runs), f).1 in {Conflict, Skipped}
  {
    if runs != [] {
      BadCopyIsPermanent(d, runs[..|runs| - 1]);
    }
  }

  /** Over any runs, readers get other bytes than before exactly when some run left a bad copy. */
  lemma {:induction false} ReadersOverRuns(d: Files, runs: seq<Faults>)
    ensures RegistryBytes(Runs(d, runs)) != RegistryBytes(d) <==> AnyBadCopy(d, runs)
    ensures AnyBadCopy(d, runs) ==>
      Runs(d, runs).legacy.Some? && Runs(d, runs).canonical.Some? && Runs(d, runs).canonical != Runs(d, runs).legacy
  {
    if runs != [] {
      var front, last := runs[..|runs| - 1], runs[|runs| - 1];
      ReadersOverRuns(d, front);
      var middle := Runs(d, front);
      ReadersSeeAChangeExactlyWhen(middle, last);
      if AnyBadCopy(d, front) {
        BadCopyIsPermanent(middle, [last]);
        assert [last][..0] == [];
        assert Runs(middle, [last]) == MigrateModel(middle, last).0;
      }
    }
  }

  /** A run that reports `moved` leaves what readers get, and both files hold the legacy bytes. */
  lemma MovedKeepsReaders(d: Files, f: Faults)
    requires Legal(f) && MigrateModel(d, f).1 == Moved
    ensures RegistryBytes(MigrateModel(d, f).0) == RegistryBytes(d)
    ensures d.legacy.Some? && MigrateModel(d, f).0 == Files(None, d.legacy, d.legacy)
  {
    assert MigrateModel(d, f) == VerifyModel(d.(canonical := f.copyLeaves), f);
  }

  // ---- What each death leaves ---------------------------------------------------------------

  /** A run that finds legacy alone, with every step it gets to succeeding. */
  ghost predicate CleanStart(d: Files, f: Faults) {
    && d.legacy.Some? && d.canonical.None? && d.backup.None?
    && f.resolves && f.dirMade && f.readable && f.removeOk && f.renameOk
  }

  /**
   What a run cut short after each number of steps leaves: nothing, a copy as far as it got, both files, then
   canonical and backup without a report, and the reported move after four. A failed or wrong copy is reported too.
   */
  lemma DeathAfterEachStep(d: Files, f: Faults)
    requires CleanStart(d, f)
    ensures f.steps == 0 ==> MigrateModel(d, f) == (d, Died)
    ensures f.steps == 1 ==> MigrateModel(d, f) == (Files(d.legacy, f.copyLeaves, None), Died)
    ensures f.steps >= 2 && !f.copyOk ==> MigrateModel(d, f) == (Files(d.legacy, f.copyLeaves, None), Skipped)
    ensures f.copyOk && f.copyLeaves == d.legacy ==>
              && (f.steps == 2 ==> MigrateModel(d, f) == (Files(d.legacy, d.legacy, None), Died))
              && (f.steps == 3 ==> MigrateModel(d, f) == (Files(None, d.legacy, d.legacy), Died))
              && (f.steps >= 4 ==> MigrateModel(d, f) == (Files(None, d.legacy, d.legacy), Moved))
    ensures f.copyOk && f.copyLeaves != d.legacy ==>
              && (f.steps == 2 ==> MigrateModel(d, f) == (Files(d.legacy, f.copyLeaves, None), Died))
              && (f.steps >= 3 ==> MigrateModel(d, f) == (d, Conflict))
  {
    var copied := d.(canonical := f.copyLeaves);
    if f.steps >= 2 && f.copyOk {
      assert MigrateModel(d, f) == VerifyModel(copied, f);
      assert Differ(copied, f) <==> f.copyLeaves != d.legacy;
    }
  }

  /** The run after a death between copy and rename finishes the rename, unless it dies before its only step. */
  lemma RenameIsFinished(d: Files, f: Faults)
    requires d.legacy.Some? && d.canonical == d.legacy && d.backup.None?
    requires f.resolves && f.readable && f.renameOk
    ensures MigrateModel(d, f) == if f.steps == 0 then (d, Died) else (Files(None, d.legacy, d.legacy), Skipped)
  {
    assert !Differ(d, f);
  }

  // ---- Finishing ----------------------------------------------------------------------------

  predicate FaultFree(f: Faults, legacy: Option<Bytes>) {
    && f.resolves && f.dirMade && f.copyOk && f.readable && f.removeOk && f.renameOk && f.steps >= LAST_STEP
    && f.copyLeaves == legacy
  }

  /**
   Unless a bad copy was left or a backup was already there, one run without faults finishes the move, whatever the
   interrupted runs before it did; every run after that changes nothing.
   */
  lemma FaultFreeRunFinishes(d: Files, runs: seq<Faults>, f: Faults, later: Faults)
    requires d.legacy.Some? && d.backup.None? && d.canonical.None?
    requires !AnyBadCopy(d, runs) && FaultFree(f, d.legacy)
    ensures
      var done := MigrateModel(Runs(d, runs), f).0;
      done == Files(None, d.legacy, d.legacy) && MigrateModel(done, later).0 == done
  {
    NothingIsLost(d, runs);
    ReadersOverRuns(d, runs);
    BackupOnlyByMove(d, runs);
  }

  lemma {:induction false} BackupOnlyByMove(d: Files, runs: seq<Faults>)
    requires d.legacy.Some? && d.backup.None?
    ensures Runs(d, runs).legacy.Some? ==> Runs(d, runs).backup.None?
  {
    if runs != [] {
      NothingIsLost(d, runs[..|runs| - 1]);
      BackupOnlyByMove(d, runs[..|runs| - 1]);
    }
  }
}
