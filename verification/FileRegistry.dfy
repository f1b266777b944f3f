/**
 The file-ownership registry (`crates/orrch-core/src/file_registry.rs`). What the clock and the disk answer is arbitrary;
 the audit log is append-only, and properties of a run are stated about it.
 */
module FileRegistries {
  import opened Options

  type Time = int

  const CRASH_GRACE: int := 300_000_000_000 // 5 minutes, in nanoseconds
  const U32_MAX: nat := 0xFFFF_FFFF

  datatype Agent = Agent(id: string)

  /** The names of an absolute path, from the root down. */
  datatype Path = Path(names: seq<string>)

  // ---- Data ---------------------------------------------------------------------------------

  /** Whether saving the registry succeeds, and whether the audit entry can be read back from the log afterwards. */
  datatype Disk = Disk(saved: bool, logged: bool)

  /** What the clock and the disk answer while one path is handled. */
  datatype Sample = Sample(now: Time, byteSize: nat, contentSha256: string)

  datatype Ownership = Ownership(
    path: Path, owner: Agent, acquiredAt: Time, lastTouch: Time, byteSize: nat, contentSha256: string, editCount: nat)

  datatype ChangeSpec = Patch(unifiedDiff: string) | Replace(old_: string, new_: string) | Natural(directive: string)

  datatype EditStatus = Pending | Accepted | Rejected(reason: string) | Applied(commitSha: Option<string>)

  datatype EditHandle = EditHandle(
    id: string, path: Path, requester: Agent, owner: Agent, changeSpec: ChangeSpec, postedAt: Time, status: EditStatus)

  datatype Error =
    | AlreadyOwned(path: Path, currentOwner: Agent)
    | NotOwned(path: Path)
    | NotOwnedByRequester(path: Path, currentOwner: Agent, requester: Agent)
    | EditNotFound(id: string)
    | PathEscape
    | SaveFailed

  datatype Result<+T> = Ok(value: T) | Err(error: Error)

  datatype Verdict =
    | ACQUIRE | REACQUIRE | DOUBLE_READ_SOFT | DOUBLE_READ_BLOCKED | RELEASE | RELEASE_ALL | TRANSFER
    | REQUEST_EDIT | APPLY_EDIT | REJECT_EDIT | MARK_CRASHED | CRASH_RELEASE

  datatype AuditEntry = AuditEntry(verdict: Verdict, agent: Agent, path: Path, currentOwner: Option<Agent>)

  datatype Registry = Registry(
    owners: map<Path, Ownership>, pending: seq<EditHandle>, crashed: map<Agent, Time>, soft: bool, log: seq<AuditEntry>)

  // ---- Paths --------------------------------------------------------------------------------

  datatype Component = Normal(name: string) | ParentDir | CurDir

  datatype RawPath = RawPath(absolute: bool, parts: seq<Component>)

  /** Walks the components, popping on `..`; `None` when there is nothing to pop. */
  function Normalize(base: seq<string>, parts: seq<Component>): Option<seq<string>>
    decreases |parts|
  {
    if parts == [] then Some(base)
    else
      match parts[0]
      case ParentDir => if base == [] then None else Normalize(base[..|base| - 1], parts[1..])
      case CurDir => Normalize(base, parts[1..])
      case Normal(name) => Normalize(base + [name], parts[1..])
  }

  /** What `fs::canonicalize` makes of a path: its links resolved, or the path itself when it does not exist. */
  type Resolver = seq<string> -> seq<string>

  function Canonicalize(root: Path, resolve: Resolver, raw: RawPath): (r: Option<Path>)
    ensures r.Some? ==> resolve(root.names) <= r.value.names
  {
    var out := Normalize(if raw.absolute then [] else root.names, raw.parts);
    if out.Some? && resolve(root.names) <= resolve(out.value) then Some(Path(resolve(out.value))) else None
  }

  function AsRaw(p: Path): RawPath {
    RawPath(true, seq(|p.names|, i requires 0 <= i < |p.names| => Normal(p.names[i])))
  }

  lemma {:induction false} NormalizeNames(base: seq<string>, p: seq<string>)
    ensures Normalize(base, AsRaw(Path(p)).parts) == Some(base + p)
    decreases |p|
  {
    if p != [] {
      assert AsRaw(Path(p)).parts[1..] == AsRaw(Path(p[1..])).parts;
      assert base + [p[0]] + p[1..] == base + p;
      NormalizeNames(base + [p[0]], p[1..]);
    } else {
      assert base + p == base;
    }
  }

  predicate IsCanonical(root: Path, resolve: Resolver, p: Path) {
    resolve(p.names) == p.names && resolve(root.names) <= p.names
  }

  /** A canonical path stands for itself, so the registry may be fed its own paths. */
  lemma CanonicalIsFixpoint(root: Path, resolve: Resolver, p: Path)
    requires IsCanonical(root, resolve, p)
    ensures Canonicalize(root, resolve, AsRaw(p)) == Some(p)
  {
    NormalizeNames([], p.names);
    assert [] + p.names == p.names;
  }

  /** With links that resolve in one go, whatever was canonicalized once canonicalizes to itself. */
  lemma CanonicalizeTwice(root: Path, resolve: Resolver, raw: RawPath)
    requires forall names :: resolve(resolve(names)) == resolve(names)
    requires Canonicalize(root, resolve, raw).Some?
    ensures
      var p := Canonicalize(root, resolve, raw).value;
      IsCanonical(root, resolve, p) && Canonicalize(root, resolve, AsRaw(p)) == Some(p)
  {
    CanonicalIsFixpoint(root, resolve, Canonicalize(root, resolve, raw).value);
  }

  // ---- What a path means --------------------------------------------------------------------

  /** Walking on from where the first components lead. */
  lemma {:induction false} NormalizeConcat(base: seq<string>, a: seq<Component>, b: seq<Component>)
    ensures
      var half := Normalize(base, a);
      Normalize(base, a + b) == if half.None? then None else Normalize(half.value, b)
    decreases |a|
  {
    if a == [] {
      assert a + b == b;
    } else {
      assert (a + b)[1..] == a[1..] + b;
      match a[0]
      case ParentDir =>
        if base != [] {
          NormalizeConcat(base[..|base| - 1], a[1..], b);
        }
      case CurDir => NormalizeConcat(base, a[1..], b);
      case Normal(name) => NormalizeConcat(base + [name], a[1..], b);
    }
  }

  lemma WalkOne(base: seq<string>, c: Component)
    ensures Normalize(base, [c]) == match c
      case ParentDir => if base == [] then None else Some(base[..|base| - 1])
      case CurDir => Some(base)
      case Normal(name) => Some(base + [name])
  {
    assert [c][1..] == [];
  }

  /** A name and the `..` after it cancel out, and `.` means nothing. */
  lemma ParentUndoesName(base: seq<string>, a: seq<Component>, name: string, b: seq<Component>)
    ensures Normalize(base, a + ([Normal(name), ParentDir] + b)) == Normalize(base, a + b)
    ensures Normalize(base, a + ([CurDir] + b)) == Normalize(base, a + b)
  {
    NormalizeConcat(base, a, b);
    NormalizeConcat(base, a, [Normal(name), ParentDir] + b);
    NormalizeConcat(base, a, [CurDir] + b);
    if Normalize(base, a).Some? {
      var half := Normalize(base, a).value;
      assert ([CurDir] + b)[1..] == b;
      assert ([Normal(name), ParentDir] + b)[1..] == [ParentDir] + b && ([ParentDir] + b)[1..] == b;
      assert (half + [name])[..|half|] == half;
    }
  }

  function Ups(parts: seq<Component>): nat {
    if parts == [] then 0 else Ups(parts[..|parts| - 1]) + if parts[|parts| - 1].ParentDir? then 1 else 0
  }

  function Downs(parts: seq<Component>): nat {
    if parts == [] then 0 else Downs(parts[..|parts| - 1]) + if parts[|parts| - 1].Normal? then 1 else 0
  }

  /** Some first part of the components goes up more often than there are names to go up from. */
  predicate ClimbsOut(depth: nat, parts: seq<Component>) {
    exists k :: 0 <= k <= |parts| && Ups(parts[..k]) > depth + Downs(parts[..k])
  }

  lemma {:induction false} NormalizeDepth(base: seq<string>, parts: seq<Component>)
    ensures Normalize(base, parts).None? ==> ClimbsOut(|base|, parts)
    ensures
      Normalize(base, parts).Some? ==>
        && !ClimbsOut(|base|, parts)
        && |Normalize(base, parts).value| == |base| + Downs(parts) - Ups(parts)
  {
    if parts != [] {
      var front, c := parts[..|parts| - 1], parts[|parts| - 1];
      assert parts == front + [c];
      NormalizeDepth(base, front);
      NormalizeConcat(base, front, [c]);
      forall k | 0 <= k <= |front| ensures parts[..k] == front[..k] {
      }
      assert parts[..|parts|] == parts && front[..|front|] == front;
      if Normalize(base, front).None? {
        var k :| 0 <= k <= |front| && Ups(front[..k]) > |base| + Downs(front[..k]);
        assert Ups(parts[..k]) > |base| + Downs(parts[..k]);
      } else {
        WalkOne(Normalize(base, front).value, c);
        if Normalize(base, parts).None? {
          assert Ups(parts[..|parts|]) > |base| + Downs(parts[..|parts|]);
        } else {
          forall k | 0 <= k <= |parts| ensures Ups(parts[..k]) <= |base| + Downs(parts[..k]) {
          }
        }
      }
    } else {
      assert parts[..0] == [];
      assert forall k :: 0 <= k <= |parts| ==> parts[..k] == [];
    }
  }

  /** A path is refused for its components exactly when it climbs out of the file system. */
  lemma RefusedExactlyWhen(base: seq<string>, parts: seq<Component>)
    ensures Normalize(base, parts).None? <==> ClimbsOut(|base|, parts)
  {
    NormalizeDepth(base, parts);
  }

  function UpBy(n: nat): seq<Component> {
    seq(n, i => ParentDir)
  }

  lemma {:induction false} UpByWalks(base: seq<string>, n: nat)
    ensures Normalize(base, UpBy(n)) == if n <= |base| then Some(base[..|base| - n]) else None
  {
    if n == 0 {
      assert base[..|base|] == base;
    } else {
      UpByWalks(base, n - 1);
      assert UpBy(n) == UpBy(n - 1) + [ParentDir];
      NormalizeConcat(base, UpBy(n - 1), [ParentDir]);
      if n - 1 <= |base| {
        WalkOne(base[..|base| - (n - 1)], ParentDir);
        if n <= |base| {
          assert base[..|base| - (n - 1)][..|base| - n] == base[..|base| - n];
        }
      }
    }
  }

  /**
   Without links, a relative path of `n` times `..` and then some names is accepted exactly when the names begin with
   the last `n` of the root's own, so that it comes back into the root; any other way above the root is refused.
   */
  lemma ClimbingPathExactlyWhen(root: Path, n: nat, names: seq<string>)
    ensures
      var climbed := Canonicalize(root, same => same, RawPath(false, UpBy(n) + AsRaw(Path(names)).parts));
      climbed == if n <= |root.names| && root.names[|root.names| - n..] <= names
        then Some(Path(root.names[..|root.names| - n] + names)) else None
  {
    var base := root.names;
    UpByWalks(base, n);
    NormalizeConcat(base, UpBy(n), AsRaw(Path(names)).parts);
    if n <= |base| {
      var stem, last := base[..|base| - n], base[|base| - n..];
      NormalizeNames(stem, names);
      assert base == stem + last;
      PrefixBehind(stem, last, names);
    }
  }

  lemma PrefixBehind(stem: seq<string>, last: seq<string>, names: seq<string>)
    ensures stem + last <= stem + names <==> last <= names
  {
    if stem + last <= stem + names {
      assert |last| <= |names|;
      assert names[..|last|] == (stem + names)[|stem|..|stem| + |last|] == (stem + last)[|stem|..] == last;
    }
    if last <= names {
      assert (stem + names)[..|stem| + |last|] == stem + names[..|last|];
    }
  }

  // ---- Transition functions -----------------------------------------------------------------

  function Empty(): Registry {
    Registry(map[], [], map[], false, [])
  }

  /** Appends an entry to the audit log; a failure is passed over, and `logged` says whether the entry got there. */
  function Audit(s: Registry, logged: bool, e: AuditEntry): Registry {
    if logged then s.(log := s.log + [e]) else s
  }

  /**
   Saves the registry and then writes the entry. When the save fails the call returns early: what it changed in memory
   stays, and no entry is written.
   */
  function Commit<T>(s: Registry, disk: Disk, e: AuditEntry, value: T): (Registry, Result<T>) {
    if disk.saved then (Audit(s, disk.logged, e), Ok(value)) else (s, Err(SaveFailed))
  }

  function Claim(path: Path, agent: Agent, at: Sample, editCount: nat): Ownership {
    Ownership(path, agent, at.now, at.now, at.byteSize, at.contentSha256, editCount)
  }

  function AcquireModel(s: Registry, path: Path, agent: Agent, at: Sample, disk: Disk): (Registry, Result<Agent>) {
    if path !in s.owners then
      Commit(s.(owners := s.owners[path := Claim(path, agent, at, 0)]), disk,
             AuditEntry(ACQUIRE, agent, path, Some(agent)), agent)
    else
      var o := s.owners[path];
      if o.owner == agent then
        Commit(s.(owners := s.owners[path := o.(lastTouch := at.now)]), disk,
               AuditEntry(REACQUIRE, agent, path, Some(agent)), agent)
      else
        (Audit(s, disk.logged,
               AuditEntry(if s.soft then DOUBLE_READ_SOFT else DOUBLE_READ_BLOCKED, agent, path, Some(o.owner))),
         Err(AlreadyOwned(path, o.owner)))
  }

  function TryAcquireModel(s: Registry, path: Path, agent: Agent, at: Sample, disk: Disk): (Registry, Result<Agent>) {
    if path in s.owners then (s, Ok(s.owners[path].owner)) else AcquireModel(s, path, agent, at, disk)
  }

  /** `None` when `agent` owns `path`, otherwise why it does not. */
  function Objection(s: Registry, path: Path, agent: Agent): Option<Error> {
    if path !in s.owners then Some(NotOwned(path))
    else if s.owners[path].owner != agent then Some(NotOwnedByRequester(path, s.owners[path].owner, agent))
    else None
  }

  function ReleaseModel(s: Registry, path: Path, agent: Agent, disk: Disk): (Registry, Result<()>) {
    var objection := Objection(s, path, agent);
    if objection.Some? then (s, Err(objection.value))
    else Commit(s.(owners := s.owners - {path}), disk, AuditEntry(RELEASE, agent, path, None), ())
  }

  /** Whether the entry for a path gets to the audit log. */
  type Logs = Path -> bool

  /** Frees the paths of these entries one after the other, logging each without a save in between. */
  function DropEach(s: Registry, entries: seq<AuditEntry>, logs: Logs): Registry {
    if entries == [] then s
    else
      var before, e := DropEach(s, entries[..|entries| - 1], logs), entries[|entries| - 1];
      Audit(before.(owners := before.owners - {e.path}), logs(e.path), e)
  }

  function ReleaseEntries(agent: Agent, order: seq<Path>): seq<AuditEntry> {
    seq(|order|, i requires 0 <= i < |order| => AuditEntry(RELEASE_ALL, agent, order[i], None))
  }

  function CrashEntries(order: seq<(Agent, Path)>): seq<AuditEntry> {
    seq(|order|, i requires 0 <= i < |order| => AuditEntry(CRASH_RELEASE, order[i].0, order[i].1, Some(order[i].0)))
  }

  function Reassigned(h: EditHandle, path: Path, from: Agent, to: Agent): EditHandle {
    if h.path == path && h.owner == from && h.status.Pending? then h.(owner := to) else h
  }

  function ReassignAll(pending: seq<EditHandle>, path: Path, from: Agent, to: Agent): seq<EditHandle> {
    seq(|pending|, i requires 0 <= i < |pending| => Reassigned(pending[i], path, from, to))
  }

  function TransferModel(s: Registry, path: Path, from: Agent, to: Agent, at: Sample, disk: Disk)
    : (Registry, Result<()>)
  {
    var objection := Objection(s, path, from);
    if objection.Some? then (s, Err(objection.value))
    else
      var moved := s.(
        owners := s.owners[path := Claim(path, to, at, s.owners[path].editCount)],
        pending := ReassignAll(s.pending, path, from, to));
      Commit(moved, disk, AuditEntry(TRANSFER, to, path, Some(from)), ())
  }

  /** One transfer of `transfer_all_from`: `path` canonicalizes to `target` when its turn comes. */
  datatype Move = Move(path: Path, target: Option<Path>, at: Sample, disk: Disk)

  function MoveModel(s: Registry, from: Agent, to: Agent, m: Move): (Registry, Result<()>) {
    if m.target.None? then (s, Err(PathEscape)) else TransferModel(s, m.target.value, from, to, m.at, m.disk)
  }

  function TransferEach(s: Registry, from: Agent, to: Agent, moves: seq<Move>): Registry {
    if moves == [] then s
    else MoveModel(TransferEach(s, from, to, moves[..|moves| - 1]), from, to, moves[|moves| - 1]).0
  }

  /** What the transfer numbered `i` returns. */
  function MoveResult(s: Registry, from: Agent, to: Agent, moves: seq<Move>, i: nat): Result<()>
    requires i < |moves|
  {
    MoveModel(TransferEach(s, from, to, moves[..i]), from, to, moves[i]).1
  }

  /** The paths moved, or the error of the last transfer. */
  function TransferAllResult(s: Registry, from: Agent, to: Agent, moves: seq<Move>): Result<seq<Path>> {
    if moves == [] || MoveResult(s, from, to, moves, |moves| - 1).Ok? then Ok(Paths(moves))
    else Err(MoveResult(s, from, to, moves, |moves| - 1).error)
  }

  function RequestModel(s: Registry, path: Path, change: ChangeSpec, requester: Agent, now: Time, id: string, disk: Disk)
    : (Registry, Result<EditHandle>)
  {
    if path !in s.owners then (s, Err(NotOwned(path)))
    else
      var owner := s.owners[path].owner;
      var h := EditHandle(id, path, requester, owner, change, now, Pending);
      Commit(s.(pending := s.pending + [h]), disk, AuditEntry(REQUEST_EDIT, requester, path, Some(owner)), h)
  }

  /** The first queued edit carrying `id`. */
  function Position(pending: seq<EditHandle>, id: string): (r: Option<nat>)
    ensures r.Some? ==> r.value < |pending| && pending[r.value].id == id && forall j :: 0 <= j < r.value ==> pending[j].id != id
    ensures r.None? ==> forall j :: 0 <= j < |pending| ==> pending[j].id != id
  {
    if pending == [] then None
    else
      var r := Position(pending[..|pending| - 1], id);
      if r.Some? then r else if pending[|pending| - 1].id == id then Some(|pending| - 1) else None
  }

  function Touched(o: Ownership, now: Time): Ownership {
    o.(editCount := if o.editCount < U32_MAX then o.editCount + 1 else U32_MAX, lastTouch := now)
  }

  function ApplyModel(s: Registry, id: string, now: Time, disk: Disk): (Registry, Result<()>) {
    var pos := Position(s.pending, id);
    if pos.None? then (s, Err(EditNotFound(id)))
    else
      var h := s.pending[pos.value];
      if h.status.Applied? then (s, Ok(()))
      else
        var s' := s.(
          pending := s.pending[pos.value := h.(status := Applied(None))],
          owners := if h.path in s.owners then s.owners[h.path := Touched(s.owners[h.path], now)] else s.owners);
        Commit(s', disk, AuditEntry(APPLY_EDIT, h.owner, h.path, Some(h.owner)), ())
  }

  function RejectModel(s: Registry, id: string, reason: string, disk: Disk): (Registry, Result<()>) {
    var pos := Position(s.pending, id);
    if pos.None? then (s, Err(EditNotFound(id)))
    else
      var h := s.pending[pos.value];
      var s' := s.(pending := s.pending[pos.value := h.(status := Rejected(reason))]);
      Commit(s', disk, AuditEntry(REJECT_EDIT, h.owner, h.path, Some(h.owner)), ())
  }

  function MarkCrashedModel(s: Registry, agent: Agent, now: Time, logged: bool): Registry {
    Audit(s.(crashed := s.crashed[agent := now]), logged, AuditEntry(MARK_CRASHED, agent, Path([]), None))
  }

  predicate GraceExpired(s: Registry, agent: Agent, now: Time) {
    agent in s.crashed && now - s.crashed[agent] >= CRASH_GRACE
  }

  function SweepModel(s: Registry, now: Time, order: seq<(Agent, Path)>, logs: Logs): Registry {
    var swept := DropEach(s, CrashEntries(order), logs);
    swept.(crashed := map a | a in s.crashed && !GraceExpired(s, a, now) :: s.crashed[a])
  }

  // ---- Operations and runs ------------------------------------------------------------------

  predicate Distinct<T(==)>(order: seq<T>) {
    forall i, j :: 0 <= i < j < |order| ==> order[i] != order[j]
  }

  /** `order` lists exactly the paths `agent` owns, each once, in whatever order the hash map yields them. */
  ghost predicate ListsOwned(s: Registry, agent: Agent, order: seq<Path>) {
    && Distinct(order)
    && forall p :: p in order <==> p in s.owners && s.owners[p].owner == agent
  }

  ghost predicate ListsExpired(s: Registry, now: Time, order: seq<(Agent, Path)>) {
    && Distinct(order)
    && forall a, p :: (a, p) in order <==> p in s.owners && s.owners[p].owner == a && GraceExpired(s, a, now)
  }

  /** `order` lists exactly the paths owned by some agent of `agents`. */
  ghost predicate ListsOwnedBy(s: Registry, agents: set<Agent>, order: seq<(Agent, Path)>) {
    && (forall ap :: ap in order ==> ap.0 in agents && ap.1 in s.owners && s.owners[ap.1].owner == ap.0)
    && (forall p :: p in s.owners && s.owners[p].owner in agents ==> (s.owners[p].owner, p) in order)
  }

  function Paths(moves: seq<Move>): seq<Path> {
    seq(|moves|, i requires 0 <= i < |moves| => moves[i].path)
  }

  /** Transfers of paths of `from`, each once, of which only the last can fail; all of its paths when none does. */
  ghost predicate MovesOwned(s: Registry, from: Agent, to: Agent, moves: seq<Move>) {
    && Distinct(Paths(moves))
    && (forall p :: p in Paths(moves) ==> p in s.owners && s.owners[p].owner == from)
    && (forall i :: 0 <= i < |moves| - 1 ==> MoveResult(s, from, to, moves, i).Ok?)
    && (TransferAllResult(s, from, to, moves).Ok? ==> ListsOwned(s, from, Paths(moves)))
  }

  function Tagged(agent: Agent, paths: seq<Path>): seq<(Agent, Path)> {
    seq(|paths|, i requires 0 <= i < |paths| => (agent, paths[i]))
  }

  /** The paths a sweep reports, in the order it dropped them. */
  function Released(order: seq<(Agent, Path)>): seq<Path> {
    seq(|order|, i requires 0 <= i < |order| => order[i].1)
  }

  lemma ListedIsExpired(s: Registry, now: Time, expired: set<Agent>, order: seq<(Agent, Path)>)
    requires Distinct(order) && ListsOwnedBy(s, expired, order)
    requires expired == set a | a in s.crashed && GraceExpired(s, a, now)
    ensures ListsExpired(s, now, order)
    ensures (map a | a in s.crashed && !GraceExpired(s, a, now) :: s.crashed[a]) == s.crashed - expired
  {
  }

  lemma ExtendListing(s: Registry, agents: set<Agent>, done: seq<(Agent, Path)>, agent: Agent, paths: seq<Path>)
    requires Distinct(done) && ListsOwnedBy(s, agents, done) && agent !in agents
    requires ListsOwned(s, agent, paths)
    ensures Distinct(done + Tagged(agent, paths))
    ensures ListsOwnedBy(s, agents + {agent}, done + Tagged(agent, paths))
    ensures Released(done + Tagged(agent, paths)) == Released(done) + paths
  {
    var order := done + Tagged(agent, paths);
    forall p | p in s.owners && s.owners[p].owner in agents + {agent}
      ensures (s.owners[p].owner, p) in order
    {
      if s.owners[p].owner == agent {
        var i :| 0 <= i < |paths| && paths[i] == p;
        assert order[|done| + i] == (agent, p);
      }
    }
  }

  datatype Op =
    | SetSoftDoubleRead(enabled: bool)
    | Acquire(path: Path, agent: Agent, at: Sample, disk: Disk)
    | TryAcquire(path: Path, agent: Agent, at: Sample, disk: Disk)
    | Release(path: Path, agent: Agent, disk: Disk)
    | ReleaseAll(agent: Agent, order: seq<Path>, logs: Logs)
    | Transfer(path: Path, from: Agent, to: Agent, at: Sample, disk: Disk)
    | TransferAllFrom(from: Agent, to: Agent, moves: seq<Move>)
    | RequestEdit(path: Path, change: ChangeSpec, requester: Agent, now: Time, id: string, disk: Disk)
    | ApplyEdit(id: string, now: Time, disk: Disk)
    | RejectEdit(id: string, reason: string, disk: Disk)
    | MarkCrashed(agent: Agent, now: Time, logged: bool)
    | SweepCrashed(now: Time, released: seq<(Agent, Path)>, logs: Logs)

  /** The iteration orders an operation names are ones the hash maps could produce. */
  ghost predicate Enabled(s: Registry, op: Op) {
    match op
    case ReleaseAll(agent, order, _) => ListsOwned(s, agent, order)
    case TransferAllFrom(from, to, moves) => MovesOwned(s, from, to, moves)
    case SweepCrashed(now, released, _) => ListsExpired(s, now, released)
    case _ => true
  }

  function Step(s: Registry, op: Op): Registry {
    match op
    case SetSoftDoubleRead(enabled) => s.(soft := enabled)
    case Acquire(path, agent, at, disk) => AcquireModel(s, path, agent, at, disk).0
    case TryAcquire(path, agent, at, disk) => TryAcquireModel(s, path, agent, at, disk).0
    case Release(path, agent, disk) => ReleaseModel(s, path, agent, disk).0
    case ReleaseAll(agent, order, logs) => DropEach(s, ReleaseEntries(agent, order), logs)
    case Transfer(path, from, to, at, disk) => TransferModel(s, path, from, to, at, disk).0
    case TransferAllFrom(from, to, moves) => TransferEach(s, from, to, moves)
    case RequestEdit(path, change, requester, now, id, disk) =>
      RequestModel(s, path, change, requester, now, id, disk).0
    case ApplyEdit(id, now, disk) => ApplyModel(s, id, now, disk).0
    case RejectEdit(id, reason, disk) => RejectModel(s, id, reason, disk).0
    case MarkCrashed(agent, now, logged) => MarkCrashedModel(s, agent, now, logged)
    case SweepCrashed(now, released, logs) => SweepModel(s, now, released, logs)
  }

  /** The registry after these operations, saves and log entries failing as each of them says. */
  function Run(ops: seq<Op>): Registry {
    if ops == [] then Empty() else Step(Run(ops[..|ops| - 1]), ops[|ops| - 1])
  }

  ghost predicate Legal(ops: seq<Op>) {
    forall i :: 0 <= i < |ops| ==> Enabled(Run(ops[..i]), ops[i])
  }

  // ---- What several paths at once leave alone -----------------------------------------------

  lemma {:induction false} DropEachFrame(s: Registry, entries: seq<AuditEntry>, logs: Logs)
    ensures
      var s' := DropEach(s, entries, logs);
      && s'.crashed == s.crashed && s'.pending == s.pending && s'.soft == s.soft
      && s'.owners.Keys == s.owners.Keys - (set e | e in entries :: e.path)
      && (forall p :: p in s'.owners ==> s'.owners[p] == s.owners[p])
      && s.log <= s'.log
      && forall i :: |s.log| <= i < |s'.log| ==> s'.log[i] in entries
  {
    if entries != [] {
      DropEachFrame(s, entries[..|entries| - 1], logs);
      assert entries == entries[..|entries| - 1] + [entries[|entries| - 1]];
    }
  }

  lemma {:induction false} TransferEachFrame(s: Registry, from: Agent, to: Agent, moves: seq<Move>)
    ensures
      var s' := TransferEach(s, from, to, moves);
      && s'.crashed == s.crashed && s'.soft == s.soft && s'.owners.Keys == s.owners.Keys
      && s.log <= s'.log
      && forall i :: |s.log| <= i < |s'.log| ==> s'.log[i].verdict == TRANSFER
  {
    if moves != [] {
      TransferEachFrame(s, from, to, moves[..|moves| - 1]);
    }
  }

  lemma {:induction false} TransferEachLeavesOthers(s: Registry, from: Agent, to: Agent, moves: seq<Move>, p: Path)
    requires forall m :: m in moves ==> m.target != Some(p)
    ensures p in TransferEach(s, from, to, moves).owners <==> p in s.owners
    ensures p in s.owners ==> TransferEach(s, from, to, moves).owners[p] == s.owners[p]
  {
    if moves != [] {
      var before, m := moves[..|moves| - 1], moves[|moves| - 1];
      assert m in moves && forall other :: other in before ==> other in moves;
      TransferEachLeavesOthers(s, from, to, before, p);
    }
  }

  /** While the links on the disk stay and every save succeeds, no transfer in between can fail. */
  lemma TransfersAllSucceed(s: Registry, from: Agent, to: Agent, moves: seq<Move>)
    requires MovesOwned(s, from, to, moves)
    requires forall m :: m in moves ==> m.target == Some(m.path) && m.disk.saved
    ensures TransferAllResult(s, from, to, moves) == Ok(Paths(moves)) && ListsOwned(s, from, Paths(moves))
  {
    if moves != [] {
      var front, m := moves[..|moves| - 1], moves[|moves| - 1];
      assert m in moves && Paths(moves)[|moves| - 1] == m.path;
      forall other | other in front ensures other.target != Some(m.path) {
        var i :| 0 <= i < |front| && front[i] == other;
        assert other == moves[i] && Paths(moves)[i] == other.path;
      }
      TransferEachLeavesOthers(s, from, to, front, m.path);
      assert m.path in Paths(moves);
    }
  }

  // ---- What the log says --------------------------------------------------------------------

  /** Who owns what, according to the log alone. */
  function Replay(log: seq<AuditEntry>): map<Path, Agent> {
    if log == [] then map[]
    else
      var before, e := Replay(log[..|log| - 1]), log[|log| - 1];
      match e.verdict
      case ACQUIRE => before[e.path := e.agent]
      case TRANSFER => before[e.path := e.agent]
      case RELEASE => before - {e.path}
      case RELEASE_ALL => before - {e.path}
      case CRASH_RELEASE => before - {e.path}
      case _ => before
  }

  predicate Replayed(s: Registry) {
    && Replay(s.log).Keys == s.owners.Keys
    && forall p :: p in s.owners ==> Replay(s.log)[p] == s.owners[p].owner
  }

  lemma ReplayStep(log: seq<AuditEntry>, e: AuditEntry)
    ensures Replay(log + [e]) ==
      if e.verdict == ACQUIRE || e.verdict == TRANSFER then Replay(log)[e.path := e.agent]
      else if e.verdict == RELEASE || e.verdict == RELEASE_ALL || e.verdict == CRASH_RELEASE then Replay(log) - {e.path}
      else Replay(log)
  {
    assert (log + [e])[..|log|] == log;
  }

  /** The entry of a call was written. */
  predicate Written(disk: Disk) {
    disk.saved && disk.logged
  }

  predicate TellsNoOwner(v: Verdict) {
    v in {REACQUIRE, DOUBLE_READ_SOFT, DOUBLE_READ_BLOCKED, REQUEST_EDIT, APPLY_EDIT, REJECT_EDIT, MARK_CRASHED}
  }

  /** A call that changes no owner leaves the log as good as it was, whatever becomes of its entry. */
  lemma OtherEntryReplays(s: Registry, after: Registry, logged: bool, e: AuditEntry)
    requires Replayed(s) && after.log == s.log && TellsNoOwner(e.verdict)
    requires after.owners.Keys == s.owners.Keys && forall p :: p in s.owners ==> after.owners[p].owner == s.owners[p].owner
    ensures Replayed(after) && Replayed(Audit(after, logged, e))
  {
    ReplayStep(s.log, e);
  }

  lemma AcquireReplays(s: Registry, path: Path, agent: Agent, at: Sample, disk: Disk)
    requires Replayed(s)
    ensures Replayed(AcquireModel(s, path, agent, at, disk).0) <==> path in s.owners || Written(disk)
  {
    if path !in s.owners {
      ReplayStep(s.log, AuditEntry(ACQUIRE, agent, path, Some(agent)));
    } else {
      ReacquireReplays(s, path, agent, at, disk);
    }
  }

  lemma ReacquireReplays(s: Registry, path: Path, agent: Agent, at: Sample, disk: Disk)
    requires Replayed(s) && path in s.owners
    ensures Replayed(AcquireModel(s, path, agent, at, disk).0)
  {
    var o := s.owners[path];
    if o.owner == agent {
      OtherEntryReplays(s, s.(owners := s.owners[path := o.(lastTouch := at.now)]), disk.logged,
                        AuditEntry(REACQUIRE, agent, path, Some(agent)));
    } else {
      OtherEntryReplays(s, s, disk.logged,
                        AuditEntry(if s.soft then DOUBLE_READ_SOFT else DOUBLE_READ_BLOCKED, agent, path, Some(o.owner)));
    }
  }

  lemma ReleaseReplays(s: Registry, path: Path, agent: Agent, disk: Disk)
    requires Replayed(s)
    ensures Replayed(ReleaseModel(s, path, agent, disk).0) <==> Objection(s, path, agent).Some? || Written(disk)
  {
    ReplayStep(s.log, AuditEntry(RELEASE, agent, path, None));
  }

  /** The log still tells an owner of a path that has none. */
  ghost predicate Ghost(s: Registry, p: Path) {
    p !in s.owners && p in Replay(s.log)
  }

  predicate Drops(v: Verdict) {
    v == RELEASE_ALL || v == CRASH_RELEASE
  }

  lemma DropReplays(s: Registry, e: AuditEntry, logged: bool)
    requires Drops(e.verdict)
    ensures
      var s' := Audit(s.(owners := s.owners - {e.path}), logged, e);
      && (Replayed(s) && logged ==> Replayed(s'))
      && (Replayed(s) && !logged && e.path in s.owners ==> Ghost(s', e.path))
      && forall p :: Ghost(s, p) && p != e.path ==> Ghost(s', p)
  {
    ReplayStep(s.log, e);
  }

  ghost predicate DistinctPaths(entries: seq<AuditEntry>) {
    forall i, j :: 0 <= i < j < |entries| ==> entries[i].path != entries[j].path
  }

  predicate AllLogged(entries: seq<AuditEntry>, logs: Logs) {
    forall i :: 0 <= i < |entries| ==> logs(entries[i].path)
  }

  /** After freeing owned paths the log tells the owners if every entry was logged; otherwise some path is a ghost. */
  lemma {:induction false} DropEachReplays(s: Registry, entries: seq<AuditEntry>, logs: Logs)
    requires Replayed(s) && DistinctPaths(entries)
    requires forall e :: e in entries ==> Drops(e.verdict) && e.path in s.owners
    ensures
      var s' := DropEach(s, entries, logs);
      if AllLogged(entries, logs) then Replayed(s')
      else exists i :: 0 <= i < |entries| && Ghost(s', entries[i].path)
  {
    if entries != [] {
      var front, e := entries[..|entries| - 1], entries[|entries| - 1];
      DropEachReplays(s, front, logs);
      DropEachFrame(s, front, logs);
      var before, after := DropEach(s, front, logs), DropEach(s, entries, logs);
      assert e in entries;
      StillOwned(s, entries, before);
      DropReplays(before, e, logs(e.path));
      LastLogged(entries, logs);
      if !AllLogged(front, logs) {
        var i :| 0 <= i < |front| && Ghost(before, front[i].path);
        assert entries[i].path != e.path;
        assert Ghost(after, entries[i].path);
      } else if !logs(e.path) {
        assert Ghost(after, entries[|entries| - 1].path);
      }
    }
  }

  lemma LastLogged(entries: seq<AuditEntry>, logs: Logs)
    requires entries != []
    ensures AllLogged(entries, logs) <==> AllLogged(entries[..|entries| - 1], logs) && logs(entries[|entries| - 1].path)
  {
    var front, last := entries[..|entries| - 1], entries[|entries| - 1];
    assert entries == front + [last];
    if AllLogged(entries, logs) {
      assert forall i :: 0 <= i < |front| ==> front[i].path == entries[i].path;
    }
  }

  lemma StillOwned(s: Registry, entries: seq<AuditEntry>, before: Registry)
    requires entries != [] && DistinctPaths(entries) && entries[|entries| - 1].path in s.owners
    requires before.owners.Keys == s.owners.Keys - (set f | f in entries[..|entries| - 1] :: f.path)
    ensures entries[|entries| - 1].path in before.owners
  {
    var p := entries[|entries| - 1].path;
    forall f | f in entries[..|entries| - 1] ensures f.path != p {
      var i :| 0 <= i < |entries| - 1 && entries[i] == f;
    }
  }

  lemma GhostIsNotReplayed(s: Registry, p: Path)
    requires Ghost(s, p)
    ensures !Replayed(s)
  {
  }

  lemma DropEachReplaysExactlyWhen(s: Registry, entries: seq<AuditEntry>, logs: Logs)
    requires Replayed(s) && DistinctPaths(entries)
    requires forall e :: e in entries ==> Drops(e.verdict) && e.path in s.owners
    ensures Replayed(DropEach(s, entries, logs)) <==> AllLogged(entries, logs)
  {
    DropEachReplays(s, entries, logs);
    if !AllLogged(entries, logs) {
      var i :| 0 <= i < |entries| && Ghost(DropEach(s, entries, logs), entries[i].path);
      GhostIsNotReplayed(DropEach(s, entries, logs), entries[i].path);
    }
  }

  lemma ReleaseAllReplays(s: Registry, agent: Agent, order: seq<Path>, logs: Logs)
    requires Replayed(s) && ListsOwned(s, agent, order)
    ensures Replayed(DropEach(s, ReleaseEntries(agent, order), logs)) <==> forall p :: p in order ==> logs(p)
  {
    var entries := ReleaseEntries(agent, order);
    forall e | e in entries ensures Drops(e.verdict) && e.path in s.owners {
      var i :| 0 <= i < |entries| && entries[i] == e;
      assert order[i] in order;
    }
    DropEachReplaysExactlyWhen(s, entries, logs);
    assert forall i :: 0 <= i < |entries| ==> entries[i].path == order[i];
    if AllLogged(entries, logs) {
      forall p | p in order ensures logs(p) {
        var i :| 0 <= i < |order| && order[i] == p;
        assert entries[i].path == p;
      }
    }
  }

  lemma SweepReplays(s: Registry, now: Time, order: seq<(Agent, Path)>, logs: Logs)
    requires Replayed(s) && ListsExpired(s, now, order)
    ensures Replayed(SweepModel(s, now, order, logs)) <==> forall ap :: ap in order ==> logs(ap.1)
  {
    var entries := CrashEntries(order);
    assert forall i :: 0 <= i < |entries| ==> entries[i].path == order[i].1;
    forall i | 0 <= i < |order| ensures order[i].1 in s.owners && s.owners[order[i].1].owner == order[i].0 {
      assert (order[i].0, order[i].1) in order;
    }
    forall e | e in entries ensures Drops(e.verdict) && e.path in s.owners {
      var i :| 0 <= i < |entries| && entries[i] == e;
      assert order[i].1 in s.owners;
    }
    forall i, j | 0 <= i < j < |entries| ensures entries[i].path != entries[j].path {
      assert order[i] != order[j];
    }
    DropEachReplaysExactlyWhen(s, entries, logs);
    if AllLogged(entries, logs) {
      forall ap | ap in order ensures logs(ap.1) {
        var i :| 0 <= i < |order| && order[i] == ap;
        assert entries[i].path == ap.1;
      }
    }
    var swept := DropEach(s, entries, logs);
    assert Replayed(SweepModel(s, now, order, logs)) <==> Replayed(swept);
  }

  lemma TransferReplays(s: Registry, path: Path, from: Agent, to: Agent, at: Sample, disk: Disk)
    requires Replayed(s)
    ensures
      Replayed(TransferModel(s, path, from, to, at, disk).0) <==>
      Objection(s, path, from).Some? || from == to || Written(disk)
    ensures
      Objection(s, path, from).None? && !Written(disk) ==> Untold(TransferModel(s, path, from, to, at, disk).0, from, to, path)
  {
    ReplayStep(s.log, AuditEntry(TRANSFER, to, path, Some(from)));
  }

  /** The path was handed over, and the log does not tell. */
  ghost predicate Untold(s: Registry, from: Agent, to: Agent, p: Path) {
    p in s.owners && s.owners[p].owner == to && p in Replay(s.log) && Replay(s.log)[p] == from
  }

  lemma StaysUntold(s: Registry, from: Agent, to: Agent, m: Move, p: Path)
    requires Untold(s, from, to, p) && from != to
    ensures Untold(MoveModel(s, from, to, m).0, from, to, p)
  {
    if m.target.Some? {
      ReplayStep(s.log, AuditEntry(TRANSFER, to, m.target.value, Some(from)));
    }
  }

  /** Transfer number `i` finds its path owned by `from`. */
  predicate Effective(s: Registry, from: Agent, to: Agent, moves: seq<Move>, i: nat)
    requires i < |moves|
  {
    moves[i].target.Some? && Objection(TransferEach(s, from, to, moves[..i]), moves[i].target.value, from).None?
  }

  /** Every transfer that changes an owner is logged. */
  predicate TransfersTold(s: Registry, from: Agent, to: Agent, moves: seq<Move>) {
    moves == [] ||
    (TransfersTold(s, from, to, moves[..|moves| - 1])
     && (Effective(s, from, to, moves, |moves| - 1) ==> Written(moves[|moves| - 1].disk)))
  }

  ghost predicate SomeUntold(s: Registry, from: Agent, to: Agent) {
    exists p :: Untold(s, from, to, p)
  }

  lemma MoveReplays(s: Registry, from: Agent, to: Agent, m: Move)
    requires Replayed(s) && from != to
    ensures
      var s', effective := MoveModel(s, from, to, m).0, m.target.Some? && Objection(s, m.target.value, from).None?;
      if effective && !Written(m.disk) then SomeUntold(s', from, to) else Replayed(s')
  {
    if m.target.Some? {
      TransferReplays(s, m.target.value, from, to, m.at, m.disk);
    }
  }

  lemma {:induction false} TransferEachReplays(s: Registry, from: Agent, to: Agent, moves: seq<Move>)
    requires Replayed(s) && from != to
    ensures
      if TransfersTold(s, from, to, moves) then Replayed(TransferEach(s, from, to, moves))
      else SomeUntold(TransferEach(s, from, to, moves), from, to)
  {
    if moves != [] {
      var front, m := moves[..|moves| - 1], moves[|moves| - 1];
      var before := TransferEach(s, from, to, front);
      TransferEachReplays(s, from, to, front);
      if TransfersTold(s, from, to, front) {
        MoveReplays(before, from, to, m);
      } else {
        var p :| Untold(before, from, to, p);
        StaysUntold(before, from, to, m, p);
      }
    }
  }

  lemma {:induction false} TransfersToSelfReplay(s: Registry, agent: Agent, moves: seq<Move>)
    requires Replayed(s)
    ensures Replayed(TransferEach(s, agent, agent, moves))
  {
    if moves != [] {
      var front, m := moves[..|moves| - 1], moves[|moves| - 1];
      TransfersToSelfReplay(s, agent, front);
      if m.target.Some? {
        TransferReplays(TransferEach(s, agent, agent, front), m.target.value, agent, agent, m.at, m.disk);
      }
    }
  }

  lemma TransferAllReplays(s: Registry, from: Agent, to: Agent, moves: seq<Move>)
    requires Replayed(s)
    ensures Replayed(TransferEach(s, from, to, moves)) <==> from == to || TransfersTold(s, from, to, moves)
  {
    if from == to {
      TransfersToSelfReplay(s, from, moves);
    } else {
      TransferEachReplays(s, from, to, moves);
      if !TransfersTold(s, from, to, moves) {
        var p :| Untold(TransferEach(s, from, to, moves), from, to, p);
      }
    }
  }

  lemma RequestReplays(s: Registry, path: Path, change: ChangeSpec, requester: Agent, now: Time, id: string, disk: Disk)
    requires Replayed(s)
    ensures Replayed(RequestModel(s, path, change, requester, now, id, disk).0)
  {
    if path in s.owners {
      var owner := s.owners[path].owner;
      var h := EditHandle(id, path, requester, owner, change, now, Pending);
      OtherEntryReplays(s, s.(pending := s.pending + [h]), disk.logged,
                        AuditEntry(REQUEST_EDIT, requester, path, Some(owner)));
    }
  }

  lemma ApplyReplays(s: Registry, id: string, now: Time, disk: Disk)
    requires Replayed(s)
    ensures Replayed(ApplyModel(s, id, now, disk).0)
  {
    var pos := Position(s.pending, id);
    if pos.Some? {
      var h := s.pending[pos.value];
      var s' := s.(
        pending := s.pending[pos.value := h.(status := Applied(None))],
        owners := if h.path in s.owners then s.owners[h.path := Touched(s.owners[h.path], now)] else s.owners);
      OtherEntryReplays(s, s', disk.logged, AuditEntry(APPLY_EDIT, h.owner, h.path, Some(h.owner)));
    }
  }

  lemma RejectReplays(s: Registry, id: string, reason: string, disk: Disk)
    requires Replayed(s)
    ensures Replayed(RejectModel(s, id, reason, disk).0)
  {
    var pos := Position(s.pending, id);
    if pos.Some? {
      var h := s.pending[pos.value];
      OtherEntryReplays(s, s.(pending := s.pending[pos.value := h.(status := Rejected(reason))]), disk.logged,
                        AuditEntry(REJECT_EDIT, h.owner, h.path, Some(h.owner)));
    }
  }

  /** Every change of owner that the call makes gets its entry in the log. */
  ghost predicate TellsOwners(s: Registry, op: Op) {
    match op
    case Acquire(path, _, _, disk) => path in s.owners || Written(disk)
    case TryAcquire(path, _, _, disk) => path in s.owners || Written(disk)
    case Release(path, agent, disk) => Objection(s, path, agent).Some? || Written(disk)
    case ReleaseAll(_, order, logs) => forall p :: p in order ==> logs(p)
    case Transfer(path, from, to, _, disk) => Objection(s, path, from).Some? || from == to || Written(disk)
    case TransferAllFrom(from, to, moves) => from == to || TransfersTold(s, from, to, moves)
    case SweepCrashed(_, released, logs) => forall ap :: ap in released ==> logs(ap.1)
    case _ => true
  }

  /** Where the log tells the owners, it does so after one more call exactly when every change of owner was logged. */
  lemma ReplaySurvivesExactlyWhen(s: Registry, op: Op)
    requires Replayed(s) && Enabled(s, op)
    ensures Replayed(Step(s, op)) <==> TellsOwners(s, op)
  {
    match op
    case SetSoftDoubleRead(_) =>
    case Acquire(path, agent, at, disk) => AcquireReplays(s, path, agent, at, disk);
    case TryAcquire(path, agent, at, disk) => AcquireReplays(s, path, agent, at, disk);
    case Release(path, agent, disk) => ReleaseReplays(s, path, agent, disk);
    case ReleaseAll(agent, order, logs) => ReleaseAllReplays(s, agent, order, logs);
    case Transfer(path, from, to, at, disk) => TransferReplays(s, path, from, to, at, disk);
    case TransferAllFrom(from, to, moves) => TransferAllReplays(s, from, to, moves);
    case RequestEdit(path, change, requester, now, id, disk) => RequestReplays(s, path, change, requester, now, id, disk);
    case ApplyEdit(id, now, disk) => ApplyReplays(s, id, now, disk);
    case RejectEdit(id, reason, disk) => RejectReplays(s, id, reason, disk);
    case MarkCrashed(agent, now, logged) => MarkReplays(s, agent, now, logged);
    case SweepCrashed(now, released, logs) => SweepReplays(s, now, released, logs);
  }

  lemma MarkReplays(s: Registry, agent: Agent, now: Time, logged: bool)
    requires Replayed(s)
    ensures Replayed(MarkCrashedModel(s, agent, now, logged))
  {
    OtherEntryReplays(s, s.(crashed := s.crashed[agent := now]), logged, AuditEntry(MARK_CRASHED, agent, Path([]), None));
  }

  /** No change of owner went unlogged. */
  ghost predicate AllTold(ops: seq<Op>) {
    forall i :: 0 <= i < |ops| ==> TellsOwners(Run(ops[..i]), ops[i])
  }

  /** Over any calls, saves and entries failing as they will, the log tells the owners if no change of owner was lost. */
  lemma ReplayYieldsOwnersAfterFailures(ops: seq<Op>)
    requires Legal(ops) && AllTold(ops)
    ensures Replay(Run(ops).log) == map p | p in Run(ops).owners :: Run(ops).owners[p].owner
  {
    AlwaysReplayed(ops);
  }

  lemma {:induction false} AlwaysReplayed(ops: seq<Op>)
    requires Legal(ops) && AllTold(ops)
    ensures Replayed(Run(ops))
  {
    if ops != [] {
      var front, op := ops[..|ops| - 1], ops[|ops| - 1];
      forall i | 0 <= i < |front| ensures Enabled(Run(front[..i]), front[i]) && TellsOwners(Run(front[..i]), front[i]) {
        assert front[..i] == ops[..i];
      }
      AlwaysReplayed(front);
      assert Enabled(Run(ops[..|ops| - 1]), ops[|ops| - 1]) && TellsOwners(Run(ops[..|ops| - 1]), ops[|ops| - 1]);
      ReplaySurvivesExactlyWhen(Run(front), op);
    }
  }

  /** The disk takes everything the call writes. */
  predicate DiskWorks(op: Op) {
    match op
    case Acquire(_, _, _, disk) => Written(disk)
    case TryAcquire(_, _, _, disk) => Written(disk)
    case Release(_, _, disk) => Written(disk)
    case ReleaseAll(_, order, logs) => forall p :: p in order ==> logs(p)
    case Transfer(_, _, _, _, disk) => Written(disk)
    case TransferAllFrom(_, _, moves) => forall m :: m in moves ==> Written(m.disk)
    case SweepCrashed(_, released, logs) => forall ap :: ap in released ==> logs(ap.1)
    case _ => true
  }

  lemma {:induction false} WorkingDiskTells(s: Registry, from: Agent, to: Agent, moves: seq<Move>)
    requires forall m :: m in moves ==> Written(m.disk)
    ensures TransfersTold(s, from, to, moves)
  {
    if moves != [] {
      assert moves[|moves| - 1] in moves;
      WorkingDiskTells(s, from, to, moves[..|moves| - 1]);
    }
  }

  lemma WorkingDiskTellsOwners(s: Registry, op: Op)
    requires DiskWorks(op)
    ensures TellsOwners(s, op)
  {
    if op.TransferAllFrom? {
      WorkingDiskTells(s, op.from, op.to, op.moves);
    }
  }

  /** After any operations on a disk that works, replaying the audit log yields exactly the path-to-owner map. */
  lemma ReplayYieldsOwners(ops: seq<Op>)
    requires Legal(ops) && forall i :: 0 <= i < |ops| ==> DiskWorks(ops[i])
    ensures Replay(Run(ops).log) == map p | p in Run(ops).owners :: Run(ops).owners[p].owner
  {
    forall i | 0 <= i < |ops| ensures TellsOwners(Run(ops[..i]), ops[i]) {
      WorkingDiskTellsOwners(Run(ops[..i]), ops[i]);
    }
    ReplayYieldsOwnersAfterFailures(ops);
  }

  /** One acquisition that is not saved, or whose entry is lost: the path is owned and the log is empty. */
  lemma LostAcquireIsNotLogged(path: Path, agent: Agent, at: Sample, disk: Disk)
    requires !Written(disk)
    ensures
      var s := Run([Acquire(path, agent, at, disk)]);
      s.log == [] && s.owners == map[path := Claim(path, agent, at, 0)] && !Replayed(s)
  {
    var ops := [Acquire(path, agent, at, disk)];
    assert ops[..0] == [] && Run(ops[..0]) == Empty();
  }

  // ---- Custody of pending edits and edit counts ---------------------------------------------

  /** The call takes the path from the unowned state. */
  predicate Takes(s: Registry, op: Op, p: Path) {
    (op.Acquire? || op.TryAcquire?) && op.path == p && p !in s.owners
  }

  /** The call applies an edit of the path. */
  predicate Applies(s: Registry, op: Op, p: Path) {
    op.ApplyEdit? && Position(s.pending, op.id).Some? &&
    var h := s.pending[Position(s.pending, op.id).value];
    h.path == p && !h.status.Applied?
  }

  /** How many edits had been posted when `p` was last taken. */
  function PostedBefore(ops: seq<Op>, p: Path): nat {
    if ops == [] then 0
    else
      var s := Run(ops[..|ops| - 1]);
      if Takes(s, ops[|ops| - 1], p) then |s.pending| else PostedBefore(ops[..|ops| - 1], p)
  }

  /** How many edits of `p` have been applied since it was last taken. */
  function AppliedSince(ops: seq<Op>, p: Path): nat {
    if ops == [] then 0
    else
      var s, op := Run(ops[..|ops| - 1]), ops[|ops| - 1];
      if Takes(s, op, p) then 0 else AppliedSince(ops[..|ops| - 1], p) + if Applies(s, op, p) then 1 else 0
  }

  /** The owner record of `p` counts `applied` edits, and the pending edits of `p` from number `posted` on name its owner. */
  predicate Custody(s: Registry, p: Path, posted: nat, applied: nat) {
    posted <= |s.pending| && (p in s.owners ==>
      && s.owners[p].path == p
      && s.owners[p].editCount == (if applied < 4294967295 then applied else 4294967295)
      && forall k :: posted <= k < |s.pending| && s.pending[k].path == p && s.pending[k].status.Pending? ==>
           s.pending[k].owner == s.owners[p].owner)
  }

  /** Nothing that custody speaks of has changed, unless the path was freed. */
  lemma CustodyStays(s: Registry, after: Registry, p: Path, posted: nat, applied: nat)
    requires Custody(s, p, posted, applied) && after.pending == s.pending
    requires p in after.owners ==> p in s.owners && after.owners[p] == s.owners[p]
    ensures Custody(after, p, posted, applied)
  {
  }

  lemma AcquireKeepsCustody(s: Registry, path: Path, agent: Agent, at: Sample, disk: Disk, p: Path, posted: nat, applied: nat)
    requires Custody(s, p, posted, applied)
    ensures
      var s', taken := AcquireModel(s, path, agent, at, disk).0, path == p && p !in s.owners;
      Custody(s', p, if taken then |s.pending| else posted, if taken then 0 else applied)
  {
  }

  lemma TransferKeepsCustody(
    s: Registry, path: Path, from: Agent, to: Agent, at: Sample, disk: Disk, p: Path, posted: nat, applied: nat)
    requires Custody(s, p, posted, applied)
    ensures Custody(TransferModel(s, path, from, to, at, disk).0, p, posted, applied)
  {
  }

  lemma {:induction false} TransferEachKeepsCustody(
    s: Registry, from: Agent, to: Agent, moves: seq<Move>, p: Path, posted: nat, applied: nat)
    requires Custody(s, p, posted, applied)
    ensures Custody(TransferEach(s, from, to, moves), p, posted, applied)
  {
    if moves != [] {
      var front, m := moves[..|moves| - 1], moves[|moves| - 1];
      TransferEachKeepsCustody(s, from, to, front, p, posted, applied);
      if m.target.Some? {
        TransferKeepsCustody(TransferEach(s, from, to, front), m.target.value, from, to, m.at, m.disk, p, posted, applied);
      }
    }
  }

  lemma DropEachKeepsCustody(s: Registry, entries: seq<AuditEntry>, logs: Logs, p: Path, posted: nat, applied: nat)
    requires Custody(s, p, posted, applied)
    ensures Custody(DropEach(s, entries, logs), p, posted, applied)
  {
    DropEachFrame(s, entries, logs);
    CustodyStays(s, DropEach(s, entries, logs), p, posted, applied);
  }

  lemma RequestKeepsCustody(
    s: Registry, path: Path, change: ChangeSpec, requester: Agent, now: Time, id: string, disk: Disk,
    p: Path, posted: nat, applied: nat)
    requires Custody(s, p, posted, applied)
    ensures Custody(RequestModel(s, path, change, requester, now, id, disk).0, p, posted, applied)
  {
  }

  lemma ApplyKeepsCustody(s: Registry, id: string, now: Time, disk: Disk, p: Path, posted: nat, applied: nat)
    requires Custody(s, p, posted, applied)
    ensures
      var s' := ApplyModel(s, id, now, disk).0;
      Custody(s', p, posted, applied + if Applies(s, ApplyEdit(id, now, disk), p) then 1 else 0)
  {
  }

  lemma RejectKeepsCustody(s: Registry, id: string, reason: string, disk: Disk, p: Path, posted: nat, applied: nat)
    requires Custody(s, p, posted, applied)
    ensures Custody(RejectModel(s, id, reason, disk).0, p, posted, applied)
  {
  }

  lemma SweepKeepsCustody(s: Registry, now: Time, order: seq<(Agent, Path)>, logs: Logs, p: Path, posted: nat, applied: nat)
    requires Custody(s, p, posted, applied)
    ensures Custody(SweepModel(s, now, order, logs), p, posted, applied)
  {
    DropEachKeepsCustody(s, CrashEntries(order), logs, p, posted, applied);
  }

  lemma ReleaseKeepsCustody(s: Registry, path: Path, agent: Agent, disk: Disk, p: Path, posted: nat, applied: nat)
    requires Custody(s, p, posted, applied)
    ensures Custody(ReleaseModel(s, path, agent, disk).0, p, posted, applied)
  {
    CustodyStays(s, ReleaseModel(s, path, agent, disk).0, p, posted, applied);
  }

  lemma StepKeepsCustody(s: Registry, op: Op, p: Path, posted: nat, applied: nat)
    requires Custody(s, p, posted, applied)
    ensures
      Custody(Step(s, op), p, if Takes(s, op, p) then |s.pending| else posted,
              if Takes(s, op, p) then 0 else applied + if Applies(s, op, p) then 1 else 0)
  {
    match op
    case SetSoftDoubleRead(_) =>
    case Acquire(path, agent, at, disk) => AcquireKeepsCustody(s, path, agent, at, disk, p, posted, applied);
    case TryAcquire(path, agent, at, disk) => AcquireKeepsCustody(s, path, agent, at, disk, p, posted, applied);
    case Release(path, agent, disk) => ReleaseKeepsCustody(s, path, agent, disk, p, posted, applied);
    case ReleaseAll(agent, order, logs) => DropEachKeepsCustody(s, ReleaseEntries(agent, order), logs, p, posted, applied);
    case Transfer(path, from, to, at, disk) => TransferKeepsCustody(s, path, from, to, at, disk, p, posted, applied);
    case TransferAllFrom(from, to, moves) => TransferEachKeepsCustody(s, from, to, moves, p, posted, applied);
    case RequestEdit(path, change, requester, now, id, disk) =>
      RequestKeepsCustody(s, path, change, requester, now, id, disk, p, posted, applied);
    case ApplyEdit(id, now, disk) => ApplyKeepsCustody(s, id, now, disk, p, posted, applied);
    case RejectEdit(id, reason, disk) => RejectKeepsCustody(s, id, reason, disk, p, posted, applied);
    case MarkCrashed(agent, now, logged) => CustodyStays(s, MarkCrashedModel(s, agent, now, logged), p, posted, applied);
    case SweepCrashed(now, released, logs) => SweepKeepsCustody(s, now, released, logs, p, posted, applied);
  }

  /** Through any operations, whatever fails on the disk, an owned path's recent pending edits name its current owner,
      and its edit count is the number of edits applied since it was last taken (saturating). */
  lemma {:induction false} CustodyFollowsOwner(ops: seq<Op>, p: Path)
    ensures Custody(Run(ops), p, PostedBefore(ops, p), AppliedSince(ops, p))
  {
    if ops != [] {
      var front := ops[..|ops| - 1];
      CustodyFollowsOwner(front, p);
      StepKeepsCustody(Run(front), ops[|ops| - 1], p, PostedBefore(front, p), AppliedSince(front, p));
    }
  }

  // ---- Crash marks and the grace period -----------------------------------------------------

  /** When `agent` was last marked crashed, if ever. */
  function LastMark(ops: seq<Op>, agent: Agent): Option<Time> {
    if ops == [] then None
    else
      match ops[|ops| - 1]
      case MarkCrashed(a, now, _) => if a == agent then Some(now) else LastMark(ops[..|ops| - 1], agent)
      case _ => LastMark(ops[..|ops| - 1], agent)
  }

  lemma CrashEntriesSnoc(order: seq<(Agent, Path)>, agent: Agent, path: Path)
    ensures CrashEntries(order + [(agent, path)]) == CrashEntries(order) + [AuditEntry(CRASH_RELEASE, agent, path, Some(agent))]
  {
  }

  lemma DropNext(s: Registry, entries: seq<AuditEntry>, e: AuditEntry, logs: Logs)
    ensures
      var before := DropEach(s, entries, logs);
      DropEach(s, entries + [e], logs) == Audit(before.(owners := before.owners - {e.path}), logs(e.path), e)
  {
    assert (entries + [e])[..|entries|] == entries;
  }

  lemma ReleaseNext(s: Registry, agent: Agent, released: seq<Path>, p: Path, logs: Logs)
    ensures
      var before, e := DropEach(s, ReleaseEntries(agent, released), logs), AuditEntry(RELEASE_ALL, agent, p, None);
      DropEach(s, ReleaseEntries(agent, released + [p]), logs)
      == Audit(before.(owners := before.owners - {p}), logs(p), e)
  {
    var e := AuditEntry(RELEASE_ALL, agent, p, None);
    DropNext(s, ReleaseEntries(agent, released), e, logs);
    assert ReleaseEntries(agent, released + [p]) == ReleaseEntries(agent, released) + [e];
  }

  lemma TaggedSnoc(done: seq<(Agent, Path)>, agent: Agent, released: seq<Path>, p: Path)
    ensures done + Tagged(agent, released + [p]) == done + Tagged(agent, released) + [(agent, p)]
  {
  }

  lemma OthersUntouched(s: Registry, agents: set<Agent>, done: seq<(Agent, Path)>, agent: Agent, logs: Logs)
    requires ListsOwnedBy(s, agents, done) && agent !in agents
    ensures
      var s' := DropEach(s, CrashEntries(done), logs);
      forall p :: p in s'.owners && s'.owners[p].owner == agent <==> p in s.owners && s.owners[p].owner == agent
  {
    var entries := CrashEntries(done);
    DropEachFrame(s, entries, logs);
    forall p | p in s.owners && s.owners[p].owner == agent ensures p !in (set e | e in entries :: e.path) {
      forall e | e in entries ensures e.path != p {
        var i :| 0 <= i < |entries| && entries[i] == e;
        assert done[i] in done;
      }
    }
  }

  /** Only `mark_crashed` and `sweep_crashed` touch the marks. */
  lemma StepKeepsMarks(s: Registry, op: Op)
    requires !op.MarkCrashed? && !op.SweepCrashed?
    ensures Step(s, op).crashed == s.crashed
  {
    match op
    case ReleaseAll(a, order, logs) => DropEachFrame(s, ReleaseEntries(a, order), logs);
    case TransferAllFrom(from, to, moves) => TransferEachFrame(s, from, to, moves);
    case _ =>
  }

  lemma {:induction false} MarksAreLatest(ops: seq<Op>, agent: Agent)
    ensures agent in Run(ops).crashed ==> LastMark(ops, agent) == Some(Run(ops).crashed[agent])
  {
    if ops != [] {
      var s, op := Run(ops[..|ops| - 1]), ops[|ops| - 1];
      MarksAreLatest(ops[..|ops| - 1], agent);
      if op.SweepCrashed? {
        DropEachFrame(s, CrashEntries(op.released), op.logs);
      } else if !op.MarkCrashed? {
        StepKeepsMarks(s, op);
      }
    }
  }

  lemma OnlySweepsCrashRelease(s: Registry, op: Op, i: nat)
    requires !op.SweepCrashed? && |s.log| <= i < |Step(s, op).log|
    ensures Step(s, op).log[i].verdict != CRASH_RELEASE
  {
    match op
    case ReleaseAll(a, order, logs) => DropEachFrame(s, ReleaseEntries(a, order), logs);
    case TransferAllFrom(from, to, moves) => TransferEachFrame(s, from, to, moves);
    case _ =>
  }

  /** A CRASH_RELEASE is only ever written by a sweep, for a path its agent owned, at least the grace period
      after that agent was last marked crashed. */
  lemma CrashReleaseHonoursGrace(ops: seq<Op>, op: Op, i: nat)
    requires Enabled(Run(ops), op)
    requires |Run(ops).log| <= i < |Run(ops + [op]).log| && Run(ops + [op]).log[i].verdict == CRASH_RELEASE
    ensures
      var e := Run(ops + [op]).log[i];
      && op.SweepCrashed?
      && e.path in Run(ops).owners && Run(ops).owners[e.path].owner == e.agent
      && LastMark(ops, e.agent).Some?
      && LastMark(ops, e.agent).value + 300_000_000_000 <= op.now
  {
    var s := Run(ops);
    assert (ops + [op])[..|ops|] == ops;
    if op.SweepCrashed? {
      var entries := CrashEntries(op.released);
      DropEachFrame(s, entries, op.logs);
      var e := Run(ops + [op]).log[i];
      assert e in entries;
      var k :| 0 <= k < |entries| && entries[k] == e;
      var ap := op.released[k];
      assert (ap.0, ap.1) in op.released;
      MarksAreLatest(ops, ap.0);
    } else {
      OnlySweepsCrashRelease(s, op, i);
    }
  }

  predicate FiveMinutesSince(s: Registry, agent: Agent, now: Time) {
    agent in s.crashed && s.crashed[agent] + 300_000_000_000 <= now
  }

  /** A sweep takes exactly the paths of the agents whose grace has run out and forgets exactly their marks. */
  lemma SweepReleasesExactlyTheExpired(s: Registry, now: Time, released: seq<(Agent, Path)>, logs: Logs)
    requires ListsExpired(s, now, released)
    ensures
      var s' := SweepModel(s, now, released, logs);
      && (forall p :: p in s'.owners <==> p in s.owners && !FiveMinutesSince(s, s.owners[p].owner, now))
      && (forall p :: p in s'.owners ==> s'.owners[p] == s.owners[p])
      && (forall a :: a in s'.crashed <==> a in s.crashed && !FiveMinutesSince(s, a, now))
      && s'.pending == s.pending
  {
    var entries := CrashEntries(released);
    DropEachFrame(s, entries, logs);
    forall p | p in s.owners
      ensures p in (set e | e in entries :: e.path) <==> GraceExpired(s, s.owners[p].owner, now)
    {
      if GraceExpired(s, s.owners[p].owner, now) {
        assert (s.owners[p].owner, p) in released;
        var k :| 0 <= k < |released| && released[k] == (s.owners[p].owner, p);
        assert entries[k] in entries && entries[k].path == p;
      }
      forall e | e in entries && e.path == p
        ensures GraceExpired(s, s.owners[p].owner, now)
      {
        var k :| 0 <= k < |entries| && entries[k] == e;
        assert (released[k].0, released[k].1) in released;
      }
    }
  }

  // ---- Who owns what after one call ---------------------------------------------------------

  function OwnerOf(s: Registry, p: Path): Option<Agent> {
    if p in s.owners then Some(s.owners[p].owner) else None
  }

  /** Who owns `p` after a call, told by who owned it before, whatever fails on the disk. */
  ghost function OwnerAfter(s: Registry, op: Op, p: Path): Option<Agent> {
    var owner := OwnerOf(s, p);
    match op
    case Acquire(path, agent, _, _) => if p == path && owner == None then Some(agent) else owner
    case TryAcquire(path, agent, _, _) => if p == path && owner == None then Some(agent) else owner
    case Release(path, agent, _) => if p == path && owner == Some(agent) then None else owner
    case ReleaseAll(agent, _, _) => if owner == Some(agent) then None else owner
    case Transfer(path, from, to, _, _) => if p == path && owner == Some(from) then Some(to) else owner
    case TransferAllFrom(from, to, moves) =>
      if owner == Some(from) && exists m :: m in moves && m.target == Some(p) then Some(to) else owner
    case SweepCrashed(now, _, _) => if owner.Some? && FiveMinutesSince(s, owner.value, now) then None else owner
    case _ => owner
  }

  /**
   A free path goes to the agent that acquires it; an owned one is freed or handed on only by its owner's own call, by a
   transfer from its owner, or by a sweep five minutes after its owner crashed. No other call changes any owner.
   */
  lemma OwnersAfterAnyCall(s: Registry, op: Op, p: Path)
    requires Enabled(s, op)
    ensures OwnerOf(Step(s, op), p) == OwnerAfter(s, op, p)
  {
    match op
    case ReleaseAll(agent, order, logs) => OwnersAfterReleaseAll(s, agent, order, logs, p);
    case TransferAllFrom(from, to, moves) => OwnersAfterMoves(s, from, to, moves, p);
    case SweepCrashed(now, released, logs) => OwnersAfterSweep(s, now, released, logs, p);
    case Acquire(path, agent, at, disk) => OwnersAfterAcquire(s, path, agent, at, disk, p);
    case TryAcquire(path, agent, at, disk) => OwnersAfterAcquire(s, path, agent, at, disk, p);
    case Release(path, agent, disk) => OwnersAfterRelease(s, path, agent, disk, p);
    case Transfer(path, from, to, at, disk) => OwnersAfterTransfer(s, path, from, to, at, disk, p);
    case _ => OwnersStay(s, op, p);
  }

  lemma OwnersStay(s: Registry, op: Op, p: Path)
    requires op.SetSoftDoubleRead? || op.RequestEdit? || op.ApplyEdit? || op.RejectEdit? || op.MarkCrashed?
    ensures OwnerOf(Step(s, op), p) == OwnerOf(s, p)
  {
  }

  lemma OwnersAfterAcquire(s: Registry, path: Path, agent: Agent, at: Sample, disk: Disk, p: Path)
    ensures OwnerOf(AcquireModel(s, path, agent, at, disk).0, p)
         == if p == path && OwnerOf(s, p) == None then Some(agent) else OwnerOf(s, p)
  {
  }

  lemma OwnersAfterRelease(s: Registry, path: Path, agent: Agent, disk: Disk, p: Path)
    ensures OwnerOf(ReleaseModel(s, path, agent, disk).0, p)
         == if p == path && OwnerOf(s, p) == Some(agent) then None else OwnerOf(s, p)
  {
  }

  lemma OwnersAfterTransfer(s: Registry, path: Path, from: Agent, to: Agent, at: Sample, disk: Disk, p: Path)
    ensures OwnerOf(TransferModel(s, path, from, to, at, disk).0, p)
         == if p == path && OwnerOf(s, p) == Some(from) then Some(to) else OwnerOf(s, p)
  {
  }

  lemma OwnersAfterReleaseAll(s: Registry, agent: Agent, order: seq<Path>, logs: Logs, p: Path)
    requires ListsOwned(s, agent, order)
    ensures OwnerOf(DropEach(s, ReleaseEntries(agent, order), logs), p)
         == if OwnerOf(s, p) == Some(agent) then None else OwnerOf(s, p)
  {
    DropEachFrame(s, ReleaseEntries(agent, order), logs);
    DroppedByRelease(agent, order, p);
  }

  lemma OwnersAfterSweep(s: Registry, now: Time, released: seq<(Agent, Path)>, logs: Logs, p: Path)
    requires ListsExpired(s, now, released)
    ensures OwnerOf(SweepModel(s, now, released, logs), p)
         == if OwnerOf(s, p).Some? && FiveMinutesSince(s, OwnerOf(s, p).value, now) then None else OwnerOf(s, p)
  {
    SweepReleasesExactlyTheExpired(s, now, released, logs);
  }

  lemma DroppedByRelease(agent: Agent, order: seq<Path>, p: Path)
    ensures p in (set e | e in ReleaseEntries(agent, order) :: e.path) <==> p in order
  {
    var entries := ReleaseEntries(agent, order);
    if p in order {
      var i :| 0 <= i < |order| && order[i] == p;
      assert entries[i] in entries && entries[i].path == p;
    }
  }

  lemma {:induction false} OwnersAfterMoves(s: Registry, from: Agent, to: Agent, moves: seq<Move>, p: Path)
    ensures OwnerOf(TransferEach(s, from, to, moves), p)
         == if OwnerOf(s, p) == Some(from) && exists m :: m in moves && m.target == Some(p) then Some(to) else OwnerOf(s, p)
  {
    if moves != [] {
      var front, last := moves[..|moves| - 1], moves[|moves| - 1];
      OwnersAfterMoves(s, from, to, front, p);
      assert last in moves && forall m :: m in moves <==> m in front || m == last;
    }
  }

  /** What the calls on one path answer: who is in the way, or that the save failed. */
  lemma AnswersExactlyWhen(s: Registry, path: Path, agent: Agent, to: Agent, at: Sample, disk: Disk)
    ensures
      var owner := OwnerOf(s, path);
      var acquired := AcquireModel(s, path, agent, at, disk).1;
      && (owner.Some? && owner != Some(agent) ==> acquired == Err(AlreadyOwned(path, owner.value)))
      && (owner.None? || owner == Some(agent) ==> acquired == if disk.saved then Ok(agent) else Err(SaveFailed))
    ensures
      var owner, tried := OwnerOf(s, path), TryAcquireModel(s, path, agent, at, disk);
      && (owner.Some? ==> tried == (s, Ok(owner.value)))
      && (owner.None? ==> tried.1 == if disk.saved then Ok(agent) else Err(SaveFailed))
    ensures
      var owner := OwnerOf(s, path);
      forall r :: r in [ReleaseModel(s, path, agent, disk), TransferModel(s, path, agent, to, at, disk)] ==>
        && (owner.None? ==> r == (s, Err(NotOwned(path))))
        && (owner.Some? && owner != Some(agent) ==> r == (s, Err(NotOwnedByRequester(path, owner.value, agent))))
        && (owner == Some(agent) ==> r.1 == if disk.saved then Ok(()) else Err(SaveFailed))
  {
  }

  /** The record of an owned path: made new when the path is taken, touched when taken again, and handed on with its count. */
  lemma RecordAfterCall(s: Registry, path: Path, agent: Agent, to: Agent, at: Sample, disk: Disk)
    ensures
      var s' := Step(s, Acquire(path, agent, at, disk));
      && path in s'.owners && (forall p :: p != path ==> (p in s'.owners <==> p in s.owners))
      && (forall p :: p != path && p in s.owners ==> s'.owners[p] == s.owners[p])
      && (path !in s.owners ==>
            s'.owners[path] == Ownership(path, agent, at.now, at.now, at.byteSize, at.contentSha256, 0))
      && (path in s.owners ==>
            var o := s.owners[path];
            s'.owners[path] == Ownership(
              o.path, o.owner, o.acquiredAt, if o.owner == agent then at.now else o.lastTouch, o.byteSize, o.contentSha256,
              o.editCount))
    ensures OwnerOf(s, path) == Some(agent) ==>
      Step(s, Transfer(path, agent, to, at, disk)).owners
      == s.owners[path := Ownership(path, to, at.now, at.now, at.byteSize, at.contentSha256, s.owners[path].editCount)]
  {
  }

  /** What an acquisition leaves in the log when its entry is written. */
  lemma LogAfterAcquire(s: Registry, path: Path, agent: Agent, at: Sample, disk: Disk)
    requires disk.logged
    ensures
      var owner, log := OwnerOf(s, path), Step(s, Acquire(path, agent, at, disk)).log;
      && (owner.None? ==> log == s.log + if disk.saved then [AuditEntry(ACQUIRE, agent, path, Some(agent))] else [])
      && (owner == Some(agent) ==>
            log == s.log + if disk.saved then [AuditEntry(REACQUIRE, agent, path, Some(agent))] else [])
      && (owner.Some? && owner != Some(agent) ==>
            log == s.log + [AuditEntry(if s.soft then DOUBLE_READ_SOFT else DOUBLE_READ_BLOCKED, agent, path, owner)])
  {
    assert s.log + [] == s.log;
  }

  lemma LogAfterRelease(s: Registry, path: Path, agent: Agent, to: Agent, at: Sample, disk: Disk)
    requires disk.logged && disk.saved && OwnerOf(s, path) == Some(agent)
    ensures Step(s, Release(path, agent, disk)).log == s.log + [AuditEntry(RELEASE, agent, path, None)]
    ensures Step(s, Transfer(path, agent, to, at, disk)).log == s.log + [AuditEntry(TRANSFER, to, path, Some(agent))]
  {
  }

  /** Trying changes nothing of an owned path and acquires a free one. */
  lemma TryingAcquires(s: Registry, path: Path, agent: Agent, at: Sample, disk: Disk)
    ensures OwnerOf(s, path).Some? ==> Step(s, TryAcquire(path, agent, at, disk)) == s
    ensures OwnerOf(s, path).None? ==>
              Step(s, TryAcquire(path, agent, at, disk)) == Step(s, Acquire(path, agent, at, disk))
  {
  }

  lemma SoftReadsAreSet(s: Registry, enabled: bool)
    ensures Step(s, SetSoftDoubleRead(enabled)) == Registry(s.owners, s.pending, s.crashed, enabled, s.log)
  {
  }

  // ---- What becomes of an edit --------------------------------------------------------------

  /** An edit is posted to the owner of its path, behind all others and pending; without an owner it is refused. */
  lemma EditIsPosted(s: Registry, path: Path, change: ChangeSpec, requester: Agent, now: Time, id: string, disk: Disk)
    ensures
      var (s', r) := RequestModel(s, path, change, requester, now, id, disk);
      var owner := OwnerOf(s, path);
      && (owner.None? ==> s' == s && r == Err(NotOwned(path)))
      && (owner.Some? ==>
            var h := EditHandle(id, path, requester, owner.value, change, now, Pending);
            && s'.pending == s.pending + [h] && s'.owners == s.owners
            && r == (if disk.saved then Ok(h) else Err(SaveFailed))
            && (disk.saved && disk.logged ==> s'.log == s.log + [AuditEntry(REQUEST_EDIT, requester, path, owner)]))
  {
  }

  /** The edit a handle names is the first with its id. */
  predicate IsNamed(s: Registry, id: string, k: nat) {
    k < |s.pending| && s.pending[k].id == id && forall j :: 0 <= j < k ==> s.pending[j].id != id
  }

  /** Every edit but `k` is as it was, and of that one everything but the status. */
  ghost predicate OnlyStatusChanges(before: seq<EditHandle>, after: seq<EditHandle>, k: nat, status: EditStatus) {
    && |after| == |before| && k < |before|
    && (forall j :: 0 <= j < |before| && j != k ==> after[j] == before[j])
    && var h := before[k];
       after[k] == EditHandle(h.id, h.path, h.requester, h.owner, h.changeSpec, h.postedAt, status)
  }

  /**
   Applying an edit marks it, counts it once more for the present record of its path up to the largest `u32` and touches
   that record; applying it again does nothing. Rejecting marks it and counts nothing. Without such an edit both refuse.
   */
  lemma EditIsSettled(s: Registry, id: string, reason: string, now: Time, disk: Disk, k: nat)
    requires IsNamed(s, id, k)
    ensures
      var (s', r) := ApplyModel(s, id, now, disk);
      var h := s.pending[k];
      if h.status.Applied? then s' == s && r == Ok(())
      else
        && OnlyStatusChanges(s.pending, s'.pending, k, Applied(None))
        && r == (if disk.saved then Ok(()) else Err(SaveFailed))
        && s'.owners.Keys == s.owners.Keys
        && (forall p :: p in s.owners && p != h.path ==> s'.owners[p] == s.owners[p])
        && (h.path in s.owners ==> Counted(s.owners[h.path], s'.owners[h.path], now))
        && (disk.saved && disk.logged ==> s'.log == s.log + [AuditEntry(APPLY_EDIT, h.owner, h.path, Some(h.owner))])
    ensures
      var (s', r) := RejectModel(s, id, reason, disk);
      var h := s.pending[k];
      && OnlyStatusChanges(s.pending, s'.pending, k, Rejected(reason))
      && r == (if disk.saved then Ok(()) else Err(SaveFailed)) && s'.owners == s.owners
      && (disk.saved && disk.logged ==> s'.log == s.log + [AuditEntry(REJECT_EDIT, h.owner, h.path, Some(h.owner))])
  {
    assert Position(s.pending, id) == Some(k);
  }

  ghost predicate Counted(before: Ownership, after: Ownership, now: Time) {
    && after.editCount == (if before.editCount >= 4294967295 then 4294967295 else before.editCount + 1)
    && after == Ownership(
         before.path, before.owner, before.acquiredAt, now, before.byteSize, before.contentSha256, after.editCount)
  }

  lemma EditIsMissing(s: Registry, id: string, reason: string, now: Time, disk: Disk)
    requires forall k :: 0 <= k < |s.pending| ==> s.pending[k].id != id
    ensures ApplyModel(s, id, now, disk) == (s, Err(EditNotFound(id)))
    ensures RejectModel(s, id, reason, disk) == (s, Err(EditNotFound(id)))
  {
    assert Position(s.pending, id) == None;
  }

  /** A handed-on path takes along exactly the pending edits that were posted to its old owner. */
  lemma EditsFollowTransfer(s: Registry, path: Path, from: Agent, to: Agent, at: Sample, disk: Disk, k: nat)
    requires OwnerOf(s, path) == Some(from) && k < |s.pending|
    ensures
      var after := TransferModel(s, path, from, to, at, disk).0.pending;
      var h := s.pending[k];
      |after| == |s.pending| &&
      if h.path == path && h.owner == from && h.status == Pending then
        after[k] == EditHandle(h.id, path, h.requester, to, h.changeSpec, h.postedAt, Pending)
      else after[k] == h
  {
  }

  // ---- Same-wave conflicts ------------------------------------------------------------------

  datatype Candidate = Candidate(agent: Agent, at: Time)

  /** The text before the first colon of an agent id. */
  function Role(id: string): string {
    if id == [] || id[0] == ':' then [] else [id[0]] + Role(id[1..])
  }

  function RolePriority(role: string): nat {
    if role in ["PM", "ProjectManager", "Project_Manager"] then 1
    else if role in ["Software_Engineer", "SoftwareEngineer", "SwE"] then 2
    else if role in ["Developer", "Dev"] then 3
    else if role == "Researcher" then 4
    else if role in ["UI_Designer", "UIDesigner"] then 5
    else if role in ["Tester", "Feature_Tester", "FeatureTester"] then 6
    else 99
  }

  predicate StringLess(a: string, b: string) {
    b != [] && (a == [] || a[0] < b[0] || (a[0] == b[0] && StringLess(a[1..], b[1..])))
  }

  lemma StringLessTotal(a: string, b: string)
    ensures a == b || StringLess(a, b) || StringLess(b, a)
  {
    if a != [] && b != [] && a[0] == b[0] {
      StringLessTotal(a[1..], b[1..]);
      assert a == [a[0]] + a[1..] && b == [b[0]] + b[1..];
    }
  }

  lemma StringLessTransitive(a: string, b: string, c: string)
    requires StringLess(a, b) && StringLess(b, c)
    ensures StringLess(a, c)
  {
    if a != [] && a[0] == b[0] == c[0] {
      StringLessTransitive(a[1..], b[1..], c[1..]);
    }
  }

  /** Strictly better: earlier, then of a stronger role, then of a smaller id. */
  predicate Beats(a: Candidate, b: Candidate) {
    var pa, pb := RolePriority(Role(a.agent.id)), RolePriority(Role(b.agent.id));
    a.at < b.at || (a.at == b.at && (pa < pb || (pa == pb && StringLess(a.agent.id, b.agent.id))))
  }

  lemma BeatsTransitive(a: Candidate, b: Candidate, c: Candidate)
    requires Beats(a, b) && Beats(b, c)
    ensures Beats(a, c)
  {
    if StringLess(a.agent.id, b.agent.id) && StringLess(b.agent.id, c.agent.id) {
      StringLessTransitive(a.agent.id, b.agent.id, c.agent.id);
    }
  }

  /** The names a role goes by, the strongest role first. */
  const ROLE_NAMES: seq<seq<string>> := [
    ["PM", "ProjectManager", "Project_Manager"],
    ["Software_Engineer", "SoftwareEngineer", "SwE"],
    ["Developer", "Dev"],
    ["Researcher"],
    ["UI_Designer", "UIDesigner"],
    ["Tester", "Feature_Tester", "FeatureTester"]]

  /** Place `i` in the order is this role's, the last place any other role's. */
  ghost predicate RanksAt(role: string, i: nat) {
    if i < 6 then role in ROLE_NAMES[i] else i == 6 && forall k :: 0 <= k < 6 ==> role !in ROLE_NAMES[k]
  }

  /** A role is what stands before the first colon of the id, or the whole id. */
  lemma {:induction false} RoleIsBeforeColon(role: string, rest: string)
    requires ':' !in role
    ensures Role(role) == role && Role(role + ":" + rest) == role
  {
    if role != [] {
      RoleIsBeforeColon(role[1..], rest);
      assert (role + ":" + rest)[1..] == role[1..] + ":" + rest && role == [role[0]] + role[1..];
    }
  }

  /** The earlier request wins; of two at once the one whose role ranks before, and in one rank the smaller id. */
  lemma BeatsExactlyWhen(a: Candidate, b: Candidate, i: nat, j: nat)
    requires RanksAt(Role(a.agent.id), i) && RanksAt(Role(b.agent.id), j)
    ensures Beats(a, b) <==> a.at < b.at || (a.at == b.at && (i < j || (i == j && StringLess(a.agent.id, b.agent.id))))
  {
    PriorityOfRank(Role(a.agent.id), i);
    PriorityOfRank(Role(b.agent.id), j);
  }

  lemma PriorityOfRank(role: string, i: nat)
    requires RanksAt(role, i)
    ensures RolePriority(role) == if i < 6 then i + 1 else 99
  {
    if i == 6 {
      var names := ROLE_NAMES;
      assert role !in names[0] && role !in names[1] && role !in names[2];
      assert role !in names[3] && role !in names[4] && role !in names[5];
    }
  }

  /** Ids compare like words in a dictionary: by the first place where they differ, a beginning before the whole. */
  lemma {:induction false} StringLessIs(a: string, b: string, k: nat)
    requires k <= |a| && k < |b| && a[..k] == b[..k]
    requires k == |a| || a[k] != b[k]
    ensures StringLess(a, b) <==> k == |a| || a[k] < b[k]
  {
    if k > 0 {
      assert a[0] == a[..k][0] && b[0] == b[..k][0];
      assert a[1..][..k - 1] == a[..k][1..] && b[1..][..k - 1] == b[..k][1..];
      StringLessIs(a[1..], b[1..], k - 1);
    }
  }

  predicate Wins(c: Candidate, candidates: seq<Candidate>) {
    c in candidates && forall d :: d in candidates ==> !Beats(d, c)
  }

  /** Who wins does not depend on the order in which the requests are listed. */
  lemma WinnerIndependentOfOrder(xs: seq<Candidate>, ys: seq<Candidate>, x: Candidate, y: Candidate)
    requires forall c :: c in xs <==> c in ys
    requires Wins(x, xs) && Wins(y, ys)
    ensures x == y
  {
    StringLessTotal(x.agent.id, y.agent.id);
    assert !Beats(x, y) && !Beats(y, x);
  }

  method PickSameWaveWinner(candidates: seq<Candidate>) returns (winner: Option<Agent>)
    ensures winner.None? <==> candidates == []
    ensures winner.Some? ==> exists c :: Wins(c, candidates) && c.agent == winner.value
  {
    if candidates == [] {
      return None;
    }
    var best := candidates[0];
    Irreflexive(best);
    var i := 1;
    while i < |candidates|
      invariant 1 <= i <= |candidates|
      invariant best in candidates[..i]
      invariant forall d :: d in candidates[..i] ==> !Beats(d, best)
    {
      ghost var previous := best;
      if Beats(candidates[i], best) {
        best := candidates[i];
      }
      forall d | d in candidates[..i + 1]
        ensures !Beats(d, best)
      {
        if d in candidates[..i] && Beats(d, best) && Beats(best, previous) {
          BeatsTransitive(d, best, previous);
        }
        Irreflexive(best);
      }
      i := i + 1;
    }
    assert candidates[..i] == candidates;
    assert Wins(best, candidates);
    winner := Some(best.agent);
  }

  lemma Irreflexive(c: Candidate)
    ensures !Beats(c, c)
  {
    StringLessIrreflexive(c.agent.id);
  }

  lemma StringLessIrreflexive(a: string)
    ensures !StringLess(a, a)
  {
  }

  // ---- The registry -------------------------------------------------------------------------

  class FileRegistry {
    const projectRoot: Path
    var owners: map<Path, Ownership>
    var pendingEdits: seq<EditHandle>
    var crashedOwners: map<Agent, Time>
    var softDoubleRead: bool
    var auditLog: seq<AuditEntry>

    function View(): Registry
      reads this
    {
      Registry(owners, pendingEdits, crashedOwners, softDoubleRead, auditLog)
    }

    constructor (projectRoot: Path)
      ensures View() == Empty() && this.projectRoot == projectRoot
    {
      this.projectRoot := projectRoot;
      owners, pendingEdits, crashedOwners, softDoubleRead, auditLog := map[], [], map[], false, [];
    }

    method SetSoftDoubleRead(enabled: bool)
      modifies this
      ensures View() == old(View()).(soft := enabled)
    {
      softDoubleRead := enabled;
    }

    method WriteAudit(logged: bool, verdict: Verdict, agent: Agent, path: Path, currentOwner: Option<Agent>)
      modifies this`auditLog
      ensures View() == Audit(old(View()), logged, AuditEntry(verdict, agent, path, currentOwner))
    {
      if logged {
        auditLog := auditLog + [AuditEntry(verdict, agent, path, currentOwner)];
      }
    }

    /** `resolve` is what the links on the disk are during the call, and `disk` how its writes end, here and below. */
    method Acquire(raw: RawPath, resolve: Resolver, agent: Agent, at: Sample, disk: Disk) returns (r: Result<Agent>)
      modifies this
      ensures match Canonicalize(projectRoot, resolve, raw)
        case None => r == Err(PathEscape) && View() == old(View())
        case Some(path) => (View(), r) == AcquireModel(old(View()), path, agent, at, disk)
    {
      var cpath := Canonicalize(projectRoot, resolve, raw);
      if cpath.None? {
        return Err(PathEscape);
      }
      var path := cpath.value;
      if path in owners {
        var existing := owners[path];
        if existing.owner == agent {
          owners := owners[path := existing.(lastTouch := at.now)];
          if !disk.saved {
            return Err(SaveFailed);
          }
          WriteAudit(disk.logged, REACQUIRE, agent, path, Some(agent));
          return Ok(agent);
        }
        if softDoubleRead {
          WriteAudit(disk.logged, DOUBLE_READ_SOFT, agent, path, Some(existing.owner));
        } else {
          WriteAudit(disk.logged, DOUBLE_READ_BLOCKED, agent, path, Some(existing.owner));
        }
        return Err(AlreadyOwned(path, existing.owner));
      }
      owners := owners[path := Ownership(path, agent, at.now, at.now, at.byteSize, at.contentSha256, 0)];
      if !disk.saved {
        return Err(SaveFailed);
      }
      WriteAudit(disk.logged, ACQUIRE, agent, path, Some(agent));
      return Ok(agent);
    }

    method TryAcquire(raw: RawPath, resolve: Resolver, agent: Agent, at: Sample, disk: Disk) returns (r: Result<Agent>)
      modifies this
      ensures match Canonicalize(projectRoot, resolve, raw)
        case None => r == Err(PathEscape) && View() == old(View())
        case Some(path) => (View(), r) == TryAcquireModel(old(View()), path, agent, at, disk)
    {
      var cpath := Canonicalize(projectRoot, resolve, raw);
      if cpath.None? {
        return Err(PathEscape);
      }
      if cpath.value in owners {
        return Ok(owners[cpath.value].owner);
      }
      r := Acquire(raw, resolve, agent, at, disk);
    }

    method Release(raw: RawPath, resolve: Resolver, agent: Agent, disk: Disk) returns (r: Result<()>)
      modifies this
      ensures match Canonicalize(projectRoot, resolve, raw)
        case None => r == Err(PathEscape) && View() == old(View())
        case Some(path) => (View(), r) == ReleaseModel(old(View()), path, agent, disk)
    {
      var cpath := Canonicalize(projectRoot, resolve, raw);
      if cpath.None? {
        return Err(PathEscape);
      }
      var path := cpath.value;
      if path !in owners {
        return Err(NotOwned(path));
      }
      if owners[path].owner != agent {
        return Err(NotOwnedByRequester(path, owners[path].owner, agent));
      }
      owners := owners - {path};
      if !disk.saved {
        return Err(SaveFailed);
      }
      WriteAudit(disk.logged, RELEASE, agent, path, None);
      return Ok(());
    }

    /** The entries are written before the save, so a failed save only shows in the result. */
    method ReleaseAll(agent: Agent, logs: Logs, saved: bool) returns (r: Result<seq<Path>>, ghost order: seq<Path>)
      modifies this
      ensures ListsOwned(old(View()), agent, order)
      ensures View() == DropEach(old(View()), ReleaseEntries(agent, order), logs)
      ensures r == if saved then Ok(order) else Err(SaveFailed)
    {
      ghost var before := View();
      var paths := set p | p in owners && owners[p].owner == agent;
      var released := [];
      while paths != {}
        invariant View() == DropEach(before, ReleaseEntries(agent, released), logs)
        invariant Divided(before, agent, released, paths)
        decreases paths
      {
        var p :| p in paths;
        paths := paths - {p};
        ReleaseNext(before, agent, released, p, logs);
        DividedNext(before, agent, released, paths, p);
        owners := owners - {p};
        released := released + [p];
        WriteAudit(logs(p), RELEASE_ALL, agent, p, None);
      }
      order := released;
      if !saved {
        r := Err(SaveFailed);
        return;
      }
      r := Ok(released);
    }

    method Transfer(raw: RawPath, resolve: Resolver, from: Agent, to: Agent, at: Sample, disk: Disk)
      returns (r: Result<()>)
      modifies this
      ensures match Canonicalize(projectRoot, resolve, raw)
        case None => r == Err(PathEscape) && View() == old(View())
        case Some(path) => (View(), r) == TransferModel(old(View()), path, from, to, at, disk)
    {
      var cpath := Canonicalize(projectRoot, resolve, raw);
      if cpath.None? {
        return Err(PathEscape);
      }
      var path := cpath.value;
      if path !in owners {
        return Err(NotOwned(path));
      }
      var prev := owners[path];
      if prev.owner != from {
        return Err(NotOwnedByRequester(path, prev.owner, from));
      }
      owners := owners[path := Ownership(path, to, at.now, at.now, at.byteSize, at.contentSha256, prev.editCount)];
      var i := 0;
      while i < |pendingEdits|
        invariant 0 <= i <= |pendingEdits| == |old(pendingEdits)|
        invariant forall k :: 0 <= k < i ==> pendingEdits[k] == Reassigned(old(pendingEdits)[k], path, from, to)
        invariant forall k :: i <= k < |pendingEdits| ==> pendingEdits[k] == old(pendingEdits)[k]
        invariant owners == old(owners)[path := Claim(path, to, at, prev.editCount)]
        invariant crashedOwners == old(crashedOwners) && softDoubleRead == old(softDoubleRead)
        invariant auditLog == old(auditLog)
      {
        var h := pendingEdits[i];
        if h.path == path && h.owner == from && h.status.Pending? {
          pendingEdits := pendingEdits[i := h.(owner := to)];
        }
        i := i + 1;
      }
      assert pendingEdits == ReassignAll(old(pendingEdits), path, from, to);
      if !disk.saved {
        return Err(SaveFailed);
      }
      WriteAudit(disk.logged, TRANSFER, to, path, Some(from));
      return Ok(());
    }

    /** The transfer of one path, when its turn comes in a world like this. */
    function MoveOf(p: Path, world: Path -> World): Move
      reads this
    {
      Move(p, Canonicalize(projectRoot, world(p).resolve, AsRaw(p)), world(p).at, world(p).disk)
    }

    /** `world` is what the clock and the disk do when each path's turn comes; the first failed transfer ends the call. */
    method TransferAllFrom(from: Agent, to: Agent, world: Path -> World) returns (r: Result<seq<Path>>, ghost moves: seq<Move>)
      modifies this
      ensures MovesOwned(old(View()), from, to, moves)
      ensures r == TransferAllResult(old(View()), from, to, moves)
      ensures View() == TransferEach(old(View()), from, to, moves)
      ensures forall m :: m in moves ==> m == MoveOf(m.path, world)
    {
      ghost var before := View();
      var paths := set p | p in owners && owners[p].owner == from;
      var moved := [];
      moves := [];
      while paths != {}
        invariant moved == Paths(moves) && Divided(before, from, moved, paths) && AllMoved(before, from, to, moves)
        invariant View() == TransferEach(before, from, to, moves)
        invariant forall m :: m in moves ==> m == MoveOf(m.path, world)
        decreases paths
      {
        var p :| p in paths;
        ghost var m := MoveOf(p, world);
        MoveOn(before, from, to, moves, paths, m);
        var one := Transfer(AsRaw(p), world(p).resolve, from, to, world(p).at, world(p).disk);
        assert (View(), one) == MoveModel(TransferEach(before, from, to, moves), from, to, m);
        paths := paths - {p};
        moves := moves + [m];
        if one.Err? {
          r := Err(one.error);
          return;
        }
        moved := moved + [p];
      }
      r := Ok(moved);
      AllAreMoved(before, from, to, moves);
    }

    method RequestEdit(
      raw: RawPath, resolve: Resolver, change: ChangeSpec, requester: Agent, now: Time, id: string, disk: Disk)
      returns (r: Result<EditHandle>)
      modifies this
      ensures match Canonicalize(projectRoot, resolve, raw)
        case None => r == Err(PathEscape) && View() == old(View())
        case Some(path) => (View(), r) == RequestModel(old(View()), path, change, requester, now, id, disk)
    {
      var cpath := Canonicalize(projectRoot, resolve, raw);
      if cpath.None? {
        return Err(PathEscape);
      }
      var path := cpath.value;
      if path !in owners {
        return Err(NotOwned(path));
      }
      var owner := owners[path].owner;
      var handle := EditHandle(id, path, requester, owner, change, now, Pending);
      pendingEdits := pendingEdits + [handle];
      if !disk.saved {
        return Err(SaveFailed);
      }
      WriteAudit(disk.logged, REQUEST_EDIT, requester, path, Some(owner));
      return Ok(handle);
    }

    method FindEdit(id: string) returns (pos: nat)
      ensures pos <= |pendingEdits|
      ensures Position(pendingEdits, id) == if pos < |pendingEdits| then Some(pos) else None
    {
      pos := 0;
      while pos < |pendingEdits| && pendingEdits[pos].id != id
        invariant pos <= |pendingEdits|
        invariant forall k :: 0 <= k < pos ==> pendingEdits[k].id != id
      {
        pos := pos + 1;
      }
    }

    method ApplyEdit(handle: EditHandle, now: Time, disk: Disk) returns (r: Result<()>)
      modifies this
      ensures (View(), r) == ApplyModel(old(View()), handle.id, now, disk)
    {
      var pos := FindEdit(handle.id);
      if pos == |pendingEdits| {
        return Err(EditNotFound(handle.id));
      }
      var h := pendingEdits[pos];
      if h.status.Applied? {
        return Ok(());
      }
      pendingEdits := pendingEdits[pos := h.(status := Applied(None))];
      if h.path in owners {
        var o := owners[h.path];
        var count := if o.editCount < U32_MAX then o.editCount + 1 else U32_MAX;
        owners := owners[h.path := o.(editCount := count, lastTouch := now)];
      }
      if !disk.saved {
        return Err(SaveFailed);
      }
      WriteAudit(disk.logged, APPLY_EDIT, h.owner, h.path, Some(h.owner));
      return Ok(());
    }

    method RejectEdit(handle: EditHandle, reason: string, disk: Disk) returns (r: Result<()>)
      modifies this
      ensures (View(), r) == RejectModel(old(View()), handle.id, reason, disk)
    {
      var pos := FindEdit(handle.id);
      if pos == |pendingEdits| {
        return Err(EditNotFound(handle.id));
      }
      var h := pendingEdits[pos];
      pendingEdits := pendingEdits[pos := h.(status := Rejected(reason))];
      if !disk.saved {
        return Err(SaveFailed);
      }
      WriteAudit(disk.logged, REJECT_EDIT, h.owner, h.path, Some(h.owner));
      return Ok(());
    }

    /** A failed save is passed over, here and in the sweep. */
    method MarkCrashed(agent: Agent, now: Time, logged: bool)
      modifies this
      ensures View() == MarkCrashedModel(old(View()), agent, now, logged)
    {
      crashedOwners := crashedOwners[agent := now];
      WriteAudit(logged, MARK_CRASHED, agent, Path([]), None);
    }

    method SweepCrashed(now: Time, logs: Logs) returns (released: seq<Path>, ghost order: seq<(Agent, Path)>)
      modifies this
      ensures ListsExpired(old(View()), now, order)
      ensures View() == SweepModel(old(View()), now, order, logs)
      ensures released == Released(order)
    {
      ghost var before := View();
      var expired := set a | a in crashedOwners && now - crashedOwners[a] >= CRASH_GRACE;
      assert expired == set a | a in before.crashed && GraceExpired(before, a, now);
      released, order := [], [];
      var agents := expired;
      while agents != {}
        invariant agents <= expired
        invariant View().(crashed := before.crashed) == DropEach(before, CrashEntries(order), logs)
        invariant crashedOwners == before.crashed - (expired - agents)
        invariant released == Released(order)
        invariant Distinct(order)
        invariant ListsOwnedBy(before, expired - agents, order)
        decreases agents
      {
        var agent :| agent in agents;
        ghost var swept := expired - agents;
        agents := agents - {agent};
        assert expired - agents == swept + {agent};
        var more := SweepAgent(agent, logs, before, swept, order);
        order := order + Tagged(agent, more);
        released := released + more;
      }
      assert expired - agents == expired;
      ListedIsExpired(before, now, expired, order);
    }

    /** One agent of a sweep. */
    method SweepAgent(
      agent: Agent, logs: Logs, ghost before: Registry, ghost swept: set<Agent>, ghost done: seq<(Agent, Path)>)
      returns (released: seq<Path>)
      requires View().(crashed := before.crashed) == DropEach(before, CrashEntries(done), logs)
      requires Distinct(done) && ListsOwnedBy(before, swept, done) && agent !in swept
      modifies this`owners, this`auditLog, this`crashedOwners
      ensures View().(crashed := before.crashed) == DropEach(before, CrashEntries(done + Tagged(agent, released)), logs)
      ensures crashedOwners == old(crashedOwners) - {agent}
      ensures Distinct(done + Tagged(agent, released))
      ensures ListsOwnedBy(before, swept + {agent}, done + Tagged(agent, released))
      ensures Released(done + Tagged(agent, released)) == Released(done) + released
    {
      OthersUntouched(before, swept, done, agent, logs);
      released := ReleaseCrashed(agent, logs, before, done);
      ExtendListing(before, swept, done, agent, released);
      crashedOwners := crashedOwners - {agent};
    }

    /** Force-releases everything a crashed agent holds. */
    method ReleaseCrashed(agent: Agent, logs: Logs, ghost before: Registry, ghost done: seq<(Agent, Path)>)
      returns (released: seq<Path>)
      requires View().(crashed := before.crashed) == DropEach(before, CrashEntries(done), logs)
      requires forall p :: p in owners && owners[p].owner == agent <==> p in before.owners && before.owners[p].owner == agent
      modifies this`owners, this`auditLog
      ensures View().(crashed := before.crashed) == DropEach(before, CrashEntries(done + Tagged(agent, released)), logs)
      ensures ListsOwned(before, agent, released)
    {
      var paths := set p | p in owners && owners[p].owner == agent;
      released := [];
      assert done + Tagged(agent, []) == done;
      while paths != {}
        invariant View().(crashed := before.crashed) == DropEach(before, CrashEntries(done + Tagged(agent, released)), logs)
        invariant Divided(before, agent, released, paths)
        decreases paths
      {
        var p :| p in paths;
        paths := paths - {p};
        ReleaseOne(agent, p, logs, before, done + Tagged(agent, released));
        TaggedSnoc(done, agent, released, p);
        released := released + [p];
      }
    }

    method ReleaseOne(agent: Agent, p: Path, logs: Logs, ghost before: Registry, ghost done: seq<(Agent, Path)>)
      requires View().(crashed := before.crashed) == DropEach(before, CrashEntries(done), logs)
      modifies this`owners, this`auditLog
      ensures View().(crashed := before.crashed) == DropEach(before, CrashEntries(done + [(agent, p)]), logs)
    {
      owners := owners - {p};
      WriteAudit(logs(p), CRASH_RELEASE, agent, p, Some(agent));
      CrashEntriesSnoc(done, agent, p);
      DropNext(before, CrashEntries(done), AuditEntry(CRASH_RELEASE, agent, p, Some(agent)), logs);
    }
  }

  // ---- Loops over the paths of an agent -----------------------------------------------------

  /** What the clock and the disk do while one path is handled. */
  datatype World = World(resolve: Resolver, at: Sample, disk: Disk)

  /** The paths of `agent` are those already handled, each once, and those still to handle. */
  ghost predicate Divided(s: Registry, agent: Agent, done: seq<Path>, paths: set<Path>) {
    && Distinct(done) && (forall p :: p in done ==> p !in paths)
    && forall p :: p in done || p in paths <==> p in s.owners && s.owners[p].owner == agent
  }

  lemma DividedNext(s: Registry, agent: Agent, done: seq<Path>, rest: set<Path>, p: Path)
    requires Divided(s, agent, done, rest + {p}) && p !in rest
    ensures Divided(s, agent, done + [p], rest)
  {
  }

  ghost predicate AllMoved(s: Registry, from: Agent, to: Agent, moves: seq<Move>) {
    forall i :: 0 <= i < |moves| ==> MoveResult(s, from, to, moves, i).Ok?
  }

  lemma PathsSnoc(moves: seq<Move>, m: Move)
    ensures Paths(moves + [m]) == Paths(moves) + [m.path]
  {
  }

  /** One more transfer, the last one if it fails. */
  lemma MoveOn(s: Registry, from: Agent, to: Agent, moves: seq<Move>, paths: set<Path>, m: Move)
    requires Divided(s, from, Paths(moves), paths) && AllMoved(s, from, to, moves) && m.path in paths
    ensures
      var one := MoveModel(TransferEach(s, from, to, moves), from, to, m);
      && TransferEach(s, from, to, moves + [m]) == one.0
      && Paths(moves + [m]) == Paths(moves) + [m.path] && Divided(s, from, Paths(moves + [m]), paths - {m.path})
      && (one.1.Ok? ==> AllMoved(s, from, to, moves + [m]))
      && (one.1.Err? ==>
            MovesOwned(s, from, to, moves + [m]) && TransferAllResult(s, from, to, moves + [m]) == Err(one.1.error))
  {
    var more := moves + [m];
    PathsSnoc(moves, m);
    assert more[..|moves|] == moves;
    forall i | 0 <= i < |moves| ensures MoveResult(s, from, to, more, i).Ok? {
      assert more[..i] == moves[..i] && more[i] == moves[i];
      assert MoveResult(s, from, to, moves, i).Ok?;
    }
  }

  lemma AllAreMoved(s: Registry, from: Agent, to: Agent, moves: seq<Move>)
    requires Divided(s, from, Paths(moves), {}) && AllMoved(s, from, to, moves)
    ensures MovesOwned(s, from, to, moves) && TransferAllResult(s, from, to, moves) == Ok(Paths(moves))
  {
  }
}
