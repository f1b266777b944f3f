/**
 The autonomous loop runtime (`crates/orrch-core/src/loop_controller.rs`). The clock, the runner and the work evaluator
 are arbitrary (`World`); every question put to them is recorded in a trace.
 */
module LoopControllers {
  import opened Options

  newtype u32 = x: int | 0 <= x < 0x1_0000_0000

  // ---- Data ---------------------------------------------------------------------------------

  datatype Schedule = Schedule(workflows: seq<string>, enabled: bool)

  datatype Config = Config(maxAutonomousAttempts: u32, concurrencyCap: nat)

  datatype Handle = Handle(workforceIndex: nat, workforceName: string, sessionIds: seq<string>, spawnedAt: nat)

  datatype RunStatus = InProgress | Completed | NeedsInput(question: string) | Failed(error: string)

  datatype SpawnResult = Spawned(handle: Handle) | CapacityExceeded(cap: nat, live: nat) | SpawnFailed(error: string)

  datatype WorkAssessment = WorkAssessment(inboxItems: nat, actionablePlanItems: nat, userGatedPlanItems: seq<string>)
  {
    predicate HasActionableWork() {
      inboxItems > 0 || actionablePlanItems > 0
    }

    predicate IsFullyUserGated() {
      !HasActionableWork() && userGatedPlanItems != []
    }
  }

  /** What the collaborators would answer during one tick. */
  datatype World = World(now: nat, poll: RunStatus, work: WorkAssessment, live: nat, spawn: SpawnResult)

  datatype BlockedReason =
    | NeedsUserDecision(workforce: string, question: string, autonomousAttempts: nat)
    | AllRemainingWorkUserGated(pendingPlanItems: seq<string>)
    | RetriesExhausted(workforce: string, attempts: nat, lastError: string)

  datatype LoopState =
    | Idle
    | Evaluating
    | Running(workforce: nat, since: nat)
    | AdvancingWorkforce
    | Paused(reason: BlockedReason)
    | Stopped

  datatype ResolvingFeedback = ResolvingFeedback(addedInboxWork: bool, answersDecisionFor: Option<string>)

  /** One observable act of the controller. */
  datatype Event =
    | Polled(status: RunStatus)
    | SpawnAsked(index: nat, name: string, live: nat, answer: SpawnResult)
    | Closed(handle: Handle)
    | Advanced
    | Resumed

  /** Everything the controller keeps besides its state. */
  datatype Ledger = Ledger(active: Option<Handle>, attempts: nat, cursor: nat, trace: seq<Event>)

  datatype Model = Model(state: LoopState, books: Ledger)

  // ---- What a trace says --------------------------------------------------------------------

  /** Every handle `spawn` ever returned, in order. */
  function SpawnedHandles(t: seq<Event>): seq<Handle> {
    if t == [] then []
    else
      var e := t[|t| - 1];
      SpawnedHandles(t[..|t| - 1]) + if e.SpawnAsked? && e.answer.Spawned? then [e.answer.handle] else []
  }

  /** Every handle passed to `close`, in order. */
  function ClosedHandles(t: seq<Event>): seq<Handle> {
    if t == [] then []
    else
      var e := t[|t| - 1];
      ClosedHandles(t[..|t| - 1]) + if e.Closed? then [e.handle] else []
  }

  function Advances(t: seq<Event>): nat {
    if t == [] then 0 else Advances(t[..|t| - 1]) + if t[|t| - 1].Advanced? then 1 else 0
  }

  predicate IsStrike(e: Event) {
    || (e.Polled? && (e.status.NeedsInput? || e.status.Failed?))
    || (e.SpawnAsked? && e.answer.SpawnFailed?)
  }

  predicate IsReset(e: Event) {
    e.Resumed? || (e.Polled? && e.status.Completed?)
  }

  /** Bad outcomes since the last completed run or resolving feedback. */
  function Strikes(t: seq<Event>): nat {
    if t == [] || IsReset(t[|t| - 1]) then 0
    else Strikes(t[..|t| - 1]) + if IsStrike(t[|t| - 1]) then 1 else 0
  }

  function Budget(cfg: Config): (k: nat)
    ensures k >= 1
  {
    if cfg.maxAutonomousAttempts == 0 then 1 else cfg.maxAutonomousAttempts as nat
  }

  function Modulus(sch: Schedule): (n: nat)
    ensures n > 0
  {
    if |sch.workflows| == 0 then 1 else |sch.workflows|
  }

  /** The position after `a` steps around a ring of `n`, that is `a % n`. */
  function Wrap(a: nat, n: nat): (r: nat)
    requires n > 0
    ensures r < n
  {
    if a < n then a else Wrap(a - n, n)
  }

  // ---- Transition functions -----------------------------------------------------------------

  function Init(): Model {
    Model(Idle, Ledger(None, 0, 0, []))
  }

  /** Records an act and the bookkeeping that goes with it. */
  function Log(sch: Schedule, k: Ledger, e: Event): Ledger {
    var logged := k.(trace := k.trace + [e]);
    match e
    case Polled(Completed) => logged.(attempts := 0)
    case Polled(InProgress) => logged
    case Polled(_) => logged.(attempts := k.attempts + 1)
    case SpawnAsked(_, _, _, Spawned(h)) => logged.(active := Some(h))
    case SpawnAsked(_, _, _, SpawnFailed(_)) => logged.(attempts := k.attempts + 1)
    case SpawnAsked(_, _, _, CapacityExceeded(_, _)) => logged
    case Closed(_) => logged.(active := None)
    case Advanced => logged.(cursor := Wrap(k.cursor + 1, Modulus(sch)))
    case Resumed => logged.(attempts := 0)
  }

  function Release(sch: Schedule, k: Ledger): Ledger {
    if k.active.Some? then Log(sch, k, Closed(k.active.value)) else k
  }

  function Park(sch: Schedule, k: Ledger, reason: BlockedReason): Model {
    Model(Paused(reason), Release(sch, k))
  }

  /** A strike has been counted: retry while the budget lasts, park once it is spent. */
  function RetryOrPark(sch: Schedule, cfg: Config, k: Ledger, reason: BlockedReason): Model {
    if k.attempts < cfg.maxAutonomousAttempts as nat then Model(Evaluating, Release(sch, k)) else Park(sch, k, reason)
  }

  predicate Runnable(sch: Schedule) {
    sch.enabled && sch.workflows != []
  }

  function SpawnModel(sch: Schedule, cfg: Config, k: Ledger, w: World): Model
    requires k.cursor < |sch.workflows|
  {
    var name := sch.workflows[k.cursor];
    var asked := Log(sch, k, SpawnAsked(k.cursor, name, w.live, w.spawn));
    match w.spawn
    case Spawned(_) => Model(Running(k.cursor, w.now), asked)
    case CapacityExceeded(_, _) => Model(Evaluating, asked)
    case SpawnFailed(error) => RetryOrPark(sch, cfg, asked, RetriesExhausted(name, asked.attempts, error))
  }

  function Decide(sch: Schedule, cfg: Config, k: Ledger, w: World): Model
    requires Runnable(sch) ==> k.cursor < |sch.workflows|
  {
    if !Runnable(sch) then Model(Idle, k)
    else if w.work.IsFullyUserGated() then Park(sch, k, AllRemainingWorkUserGated(w.work.userGatedPlanItems))
    else if !w.work.HasActionableWork() then Model(Idle, k)
    else if w.live >= cfg.concurrencyCap then Model(Evaluating, k)
    else SpawnModel(sch, cfg, k, w)
  }

  function PollModel(sch: Schedule, cfg: Config, m: Model, poll: RunStatus): Model
    requires m.books.cursor < |sch.workflows|
  {
    var seen := Log(sch, m.books, Polled(poll));
    var name := sch.workflows[m.books.cursor];
    match poll
    case InProgress => m.(books := seen)
    case Completed => Model(AdvancingWorkforce, seen)
    case NeedsInput(q) => RetryOrPark(sch, cfg, seen, NeedsUserDecision(name, q, seen.attempts))
    case Failed(e) => RetryOrPark(sch, cfg, seen, RetriesExhausted(name, seen.attempts, e))
  }

  /** Enough to index the schedule: the cursor is in range whenever a run may start or is live. */
  predicate Indexable(sch: Schedule, m: Model) {
    && (Runnable(sch) ==> m.books.cursor < |sch.workflows|)
    && (m.state.Running? || m.state.AdvancingWorkforce? ==> Runnable(sch))
  }

  function TickModel(sch: Schedule, cfg: Config, m: Model, w: World): Model
    requires Indexable(sch, m)
  {
    match m.state
    case Stopped => m
    case Paused(_) => m
    case Idle => Decide(sch, cfg, m.books, w)
    case Evaluating => Decide(sch, cfg, m.books, w)
    case Running(_, _) => PollModel(sch, cfg, m, w.poll)
    case AdvancingWorkforce => Decide(sch, cfg, Log(sch, Release(sch, m.books), Advanced), w)
  }

  predicate Resolves(reason: BlockedReason, fb: ResolvingFeedback) {
    fb.addedInboxWork || (reason.NeedsUserDecision? && fb.answersDecisionFor == Some(reason.question))
  }

  function FeedModel(sch: Schedule, m: Model, fb: ResolvingFeedback): Model {
    if m.state.Paused? && Resolves(m.state.reason, fb) then Model(Evaluating, Log(sch, m.books, Resumed)) else m
  }

  function StopModel(sch: Schedule, m: Model): Model {
    Model(Stopped, Release(sch, m.books))
  }

  // ---- The invariant of every reachable state -----------------------------------------------

  predicate Escalated(s: LoopState) {
    s.Paused? && (s.reason.NeedsUserDecision? || s.reason.RetriesExhausted?)
  }

  /** The reason shown to the user carries the spent budget and the workforce it was spent on. */
  predicate ReasonAccurate(sch: Schedule, m: Model) {
    Escalated(m.state) ==>
      && m.books.cursor < |sch.workflows|
      && m.state.reason.workforce == sch.workflows[m.books.cursor]
      && m.books.attempts
         == if m.state.reason.RetriesExhausted? then m.state.reason.attempts else m.state.reason.autonomousAttempts
  }

  /** A spawn is asked for only while no run is open and capacity is free, and targets the scheduled entry. */
  predicate Disciplined(sch: Schedule, cfg: Config, before: seq<Event>, e: Event) {
    e.SpawnAsked? ==>
      && SpawnedHandles(before) == ClosedHandles(before)
      && e.live < cfg.concurrencyCap
      && Runnable(sch)
      && e.index == Wrap(Advances(before), Modulus(sch))
      && e.name == sch.workflows[e.index]
  }

  predicate AllDisciplined(sch: Schedule, cfg: Config, t: seq<Event>) {
    t == [] || (AllDisciplined(sch, cfg, t[..|t| - 1]) && Disciplined(sch, cfg, t[..|t| - 1], t[|t| - 1]))
  }

  /** The ledger agrees with its trace. */
  predicate Balanced(sch: Schedule, cfg: Config, k: Ledger) {
    && SpawnedHandles(k.trace) == ClosedHandles(k.trace) + HeldAsList(k.active)
    && k.cursor == Wrap(Advances(k.trace), Modulus(sch))
    && k.attempts == Strikes(k.trace)
    && AllDisciplined(sch, cfg, k.trace)
    && (k.active.Some? ==> Runnable(sch))
  }

  predicate Inv(sch: Schedule, cfg: Config, m: Model) {
    && Balanced(sch, cfg, m.books)
    && (m.books.active.Some? <==> m.state.Running? || m.state.AdvancingWorkforce?)
    && m.books.attempts <= Budget(cfg)
    && (!m.state.Stopped? ==> (Escalated(m.state) <==> m.books.attempts == Budget(cfg)))
    && ReasonAccurate(sch, m)
    && (m.state.Running? ==> m.state.workforce == m.books.cursor)
  }

  lemma TraceStep(sch: Schedule, cfg: Config, t: seq<Event>, e: Event)
    ensures SpawnedHandles(t + [e]) == SpawnedHandles(t) + if e.SpawnAsked? && e.answer.Spawned? then [e.answer.handle] else []
    ensures ClosedHandles(t + [e]) == ClosedHandles(t) + if e.Closed? then [e.handle] else []
    ensures Advances(t + [e]) == Advances(t) + if e.Advanced? then 1 else 0
    ensures Strikes(t + [e]) == if IsReset(e) then 0 else Strikes(t) + if IsStrike(e) then 1 else 0
    ensures AllDisciplined(sch, cfg, t + [e]) <==> AllDisciplined(sch, cfg, t) && Disciplined(sch, cfg, t, e)
  {
    assert (t + [e])[..|t|] == t;
  }

  /** The run open once `e` has been recorded. */
  function Held(k: Ledger, e: Event): Option<Handle> {
    if e.Closed? then None else if e.SpawnAsked? && e.answer.Spawned? then Some(e.answer.handle) else k.active
  }

  function HeldAsList(active: Option<Handle>): seq<Handle> {
    if active.Some? then [active.value] else []
  }

  /** Each field of the ledger after `e`. */
  lemma LogFields(sch: Schedule, k: Ledger, e: Event)
    ensures
      var k' := Log(sch, k, e);
      && k'.trace == k.trace + [e] && k'.active == Held(k, e)
      && k'.attempts == (if IsReset(e) then 0 else k.attempts + if IsStrike(e) then 1 else 0)
      && k'.cursor == if e.Advanced? then Wrap(k.cursor + 1, Modulus(sch)) else k.cursor
  {
  }

  lemma HandlesBalance(t: seq<Event>, k: Ledger, e: Event)
    requires k.trace == t && SpawnedHandles(t) == ClosedHandles(t) + HeldAsList(k.active)
    requires e.Closed? ==> k.active == Some(e.handle)
    requires e.SpawnAsked? ==> k.active.None?
    ensures SpawnedHandles(t + [e]) == ClosedHandles(t + [e]) + HeldAsList(Held(k, e))
  {
    var spawned := if e.SpawnAsked? && e.answer.Spawned? then [e.answer.handle] else [];
    var closed := if e.Closed? then [e.handle] else [];
    HandlesLogged(t, e, spawned, closed);
    assert ClosedHandles(t) + HeldAsList(k.active) + spawned == ClosedHandles(t) + closed + HeldAsList(Held(k, e));
  }

  lemma HandlesLogged(t: seq<Event>, e: Event, spawned: seq<Handle>, closed: seq<Handle>)
    requires spawned == if e.SpawnAsked? && e.answer.Spawned? then [e.answer.handle] else []
    requires closed == if e.Closed? then [e.handle] else []
    ensures SpawnedHandles(t + [e]) == SpawnedHandles(t) + spawned && ClosedHandles(t + [e]) == ClosedHandles(t) + closed
  {
    assert (t + [e])[..|t|] == t;
  }

  lemma CursorBalances(sch: Schedule, t: seq<Event>, cursor: nat, e: Event)
    requires cursor == Wrap(Advances(t), Modulus(sch))
    ensures Wrap(Advances(t + [e]), Modulus(sch)) == if e.Advanced? then Wrap(cursor + 1, Modulus(sch)) else cursor
  {
    assert (t + [e])[..|t|] == t;
    WrapStep(Advances(t), Modulus(sch));
  }

  lemma AttemptsBalance(t: seq<Event>, e: Event)
    ensures Strikes(t + [e]) == if IsReset(e) then 0 else Strikes(t) + if IsStrike(e) then 1 else 0
  {
    assert (t + [e])[..|t|] == t;
  }

  lemma StaysDisciplined(sch: Schedule, cfg: Config, t: seq<Event>, e: Event)
    requires AllDisciplined(sch, cfg, t) && Disciplined(sch, cfg, t, e)
    ensures AllDisciplined(sch, cfg, t + [e])
  {
    assert (t + [e])[..|t|] == t;
  }

  lemma LogBalances(sch: Schedule, cfg: Config, k: Ledger, e: Event)
    requires Balanced(sch, cfg, k)
    requires Disciplined(sch, cfg, k.trace, e)
    requires e.Closed? ==> k.active == Some(e.handle)
    requires e.SpawnAsked? ==> k.active.None?
    ensures Balanced(sch, cfg, Log(sch, k, e))
  {
    LogFields(sch, k, e);
    HandlesBalance(k.trace, k, e);
    CursorBalances(sch, k.trace, k.cursor, e);
    AttemptsBalance(k.trace, e);
    StaysDisciplined(sch, cfg, k.trace, e);
    var k' := Log(sch, k, e);
    BalancedIf(sch, cfg, k');
  }

  lemma BalancedIf(sch: Schedule, cfg: Config, k: Ledger)
    requires SpawnedHandles(k.trace) == ClosedHandles(k.trace) + HeldAsList(k.active)
    requires k.cursor == Wrap(Advances(k.trace), Modulus(sch))
    requires k.attempts == Strikes(k.trace) && AllDisciplined(sch, cfg, k.trace)
    requires k.active.Some? ==> Runnable(sch)
    ensures Balanced(sch, cfg, k)
  {
  }

  lemma ReleaseBalances(sch: Schedule, cfg: Config, k: Ledger)
    requires Balanced(sch, cfg, k)
    ensures Balanced(sch, cfg, Release(sch, k))
  {
    if k.active.Some? {
      LogBalances(sch, cfg, k, Closed(k.active.value));
    }
  }

  lemma RetryKeepsInv(sch: Schedule, cfg: Config, k: Ledger, reason: BlockedReason)
    requires Balanced(sch, cfg, k) && k.attempts <= Budget(cfg) && 0 < k.attempts && k.cursor < |sch.workflows|
    requires reason.NeedsUserDecision? || reason.RetriesExhausted?
    requires reason.workforce == sch.workflows[k.cursor]
    requires k.attempts == if reason.RetriesExhausted? then reason.attempts else reason.autonomousAttempts
    ensures Inv(sch, cfg, RetryOrPark(sch, cfg, k, reason))
  {
    ReleaseBalances(sch, cfg, k);
    ReleaseKeeps(sch, k);
  }

  lemma ReleaseKeeps(sch: Schedule, k: Ledger)
    ensures
      var k' := Release(sch, k);
      k'.active.None? && k'.attempts == k.attempts && k'.cursor == k.cursor
  {
  }

  lemma SpawnKeepsInv(sch: Schedule, cfg: Config, k: Ledger, w: World)
    requires Balanced(sch, cfg, k) && k.active.None? && k.attempts < Budget(cfg)
    requires Runnable(sch) && w.live < cfg.concurrencyCap
    ensures Inv(sch, cfg, SpawnModel(sch, cfg, k, w))
  {
    var e := SpawnAsked(k.cursor, sch.workflows[k.cursor], w.live, w.spawn);
    LogBalances(sch, cfg, k, e);
    LogFields(sch, k, e);
    if w.spawn.SpawnFailed? {
      var asked := Log(sch, k, e);
      RetryKeepsInv(sch, cfg, asked, RetriesExhausted(sch.workflows[k.cursor], asked.attempts, w.spawn.error));
    }
  }

  lemma DecideKeepsInv(sch: Schedule, cfg: Config, k: Ledger, w: World)
    requires Balanced(sch, cfg, k) && k.active.None? && k.attempts < Budget(cfg)
    ensures Inv(sch, cfg, Decide(sch, cfg, k, w))
  {
    if Runnable(sch) && w.work.HasActionableWork() && w.live < cfg.concurrencyCap {
      SpawnKeepsInv(sch, cfg, k, w);
    }
  }

  lemma PollKeepsInv(sch: Schedule, cfg: Config, m: Model, poll: RunStatus)
    requires Inv(sch, cfg, m) && m.state.Running?
    ensures Inv(sch, cfg, PollModel(sch, cfg, m, poll))
  {
    var name := sch.workflows[m.books.cursor];
    var seen := Log(sch, m.books, Polled(poll));
    LogBalances(sch, cfg, m.books, Polled(poll));
    LogFields(sch, m.books, Polled(poll));
    match poll
    case InProgress =>
    case Completed =>
    case NeedsInput(q) => RetryKeepsInv(sch, cfg, seen, NeedsUserDecision(name, q, seen.attempts));
    case Failed(e) => RetryKeepsInv(sch, cfg, seen, RetriesExhausted(name, seen.attempts, e));
  }

  lemma TickKeepsInv(sch: Schedule, cfg: Config, m: Model, w: World)
    requires Inv(sch, cfg, m)
    ensures Inv(sch, cfg, TickModel(sch, cfg, m, w))
  {
    match m.state
    case Stopped =>
    case Paused(_) =>
    case Idle => DecideKeepsInv(sch, cfg, m.books, w);
    case Evaluating => DecideKeepsInv(sch, cfg, m.books, w);
    case Running(_, _) => PollKeepsInv(sch, cfg, m, w.poll);
    case AdvancingWorkforce =>
      var released := Release(sch, m.books);
      ReleaseBalances(sch, cfg, m.books);
      LogBalances(sch, cfg, released, Advanced);
      DecideKeepsInv(sch, cfg, Log(sch, released, Advanced), w);
  }

  lemma FeedKeepsInv(sch: Schedule, cfg: Config, m: Model, fb: ResolvingFeedback)
    requires Inv(sch, cfg, m)
    ensures Inv(sch, cfg, FeedModel(sch, m, fb))
  {
    LogBalances(sch, cfg, m.books, Resumed);
  }

  lemma StopKeepsInv(sch: Schedule, cfg: Config, m: Model)
    requires Inv(sch, cfg, m)
    ensures Inv(sch, cfg, StopModel(sch, m))
  {
    ReleaseBalances(sch, cfg, m.books);
  }

  lemma {:induction false} WrapStep(a: nat, n: nat)
    requires n > 0
    ensures Wrap(a + 1, n) == Wrap(Wrap(a, n) + 1, n)
  {
    if a >= n {
      WrapStep(a - n, n);
    }
  }

  lemma {:induction false} WrapIsRemainder(a: nat, n: nat)
    requires n > 0
    ensures Wrap(a, n) == a % n
  {
    if a >= n {
      WrapIsRemainder(a - n, n);
      var q, r := (a - n) / n, (a - n) % n;
      assert a == n * (q + 1) + r;
      RemainderUnique(a, n, q + 1, r);
    }
  }

  lemma RemainderUnique(a: nat, n: nat, q: int, r: nat)
    requires n > 0 && r < n && a == n * q + r
    ensures a % n == r
  {
    var k := q - a / n;
    assert n * q == n * (a / n) + n * k;
    MultipleBound(n, k);
  }

  lemma MultipleBound(n: nat, k: int)
    ensures k >= 1 ==> n * k >= n
    ensures k <= -1 ==> n * k <= 0 - n
  {
    if k >= 1 {
      assert n * k == n * (k - 1) + n;
    } else if k <= -1 {
      assert n * k == n * (k + 1) - n;
    }
  }

  // ---- Whole runs ---------------------------------------------------------------------------

  datatype Input = TickCall(world: World) | FeedCall(feedback: ResolvingFeedback) | StopCall

  function Step(sch: Schedule, cfg: Config, m: Model, input: Input): (m': Model)
    requires Indexable(sch, m)
    ensures Indexable(sch, m')
    ensures m'.state.Stopped? <==> m.state.Stopped? || input.StopCall?
    ensures m.state.Stopped? && m.books.active.None? ==> m'.books == m.books
  {
    match input
    case TickCall(w) => TickModel(sch, cfg, m, w)
    case FeedCall(fb) => FeedModel(sch, m, fb)
    case StopCall => StopModel(sch, m)
  }

  /** The state after any mix of ticks, feedback and stops, against any collaborators. */
  function Run(sch: Schedule, cfg: Config, inputs: seq<Input>): (m: Model)
    ensures Indexable(sch, m)
  {
    if inputs == [] then Init() else Step(sch, cfg, Run(sch, cfg, inputs[..|inputs| - 1]), inputs[|inputs| - 1])
  }

  lemma StepKeepsInv(sch: Schedule, cfg: Config, m: Model, input: Input)
    requires Inv(sch, cfg, m)
    ensures Inv(sch, cfg, Step(sch, cfg, m, input))
  {
    match input
    case TickCall(w) => TickKeepsInv(sch, cfg, m, w);
    case FeedCall(fb) => FeedKeepsInv(sch, cfg, m, fb);
    case StopCall => StopKeepsInv(sch, cfg, m);
  }

  lemma {:induction false} ReachableInv(sch: Schedule, cfg: Config, inputs: seq<Input>)
    ensures Inv(sch, cfg, Run(sch, cfg, inputs))
  {
    if inputs != [] {
      ReachableInv(sch, cfg, inputs[..|inputs| - 1]);
      StepKeepsInv(sch, cfg, Run(sch, cfg, inputs[..|inputs| - 1]), inputs[|inputs| - 1]);
    }
  }

  /** The loop owns a run exactly while Running or Advancing; every other spawned run is closed once, in spawn order. */
  lemma EveryRunClosedExactlyOnce(sch: Schedule, cfg: Config, inputs: seq<Input>)
    ensures
      var m := Run(sch, cfg, inputs);
      && (m.books.active.Some? <==> m.state.Running? || m.state.AdvancingWorkforce?)
      && SpawnedHandles(m.books.trace)
         == ClosedHandles(m.books.trace) + (if m.books.active.Some? then [m.books.active.value] else [])
      && m.books.cursor == Advances(m.books.trace) % Modulus(sch)
      && (m.books.active.Some? ==> m.books.cursor < |sch.workflows|)
  {
    ReachableInv(sch, cfg, inputs);
    WrapIsRemainder(Advances(Run(sch, cfg, inputs).books.trace), Modulus(sch));
  }

  /** The loop parks on a spent budget exactly when max(K, 1) bad outcomes have piled up. */
  lemma EscalatesExactlyAtBudget(sch: Schedule, cfg: Config, inputs: seq<Input>)
    requires StopCall !in inputs
    ensures
      var m := Run(sch, cfg, inputs);
      && m.books.attempts == Strikes(m.books.trace) <= Budget(cfg)
      && (Escalated(m.state) <==> Strikes(m.books.trace) == Budget(cfg))
      && ReasonAccurate(sch, m)
  {
    ReachableInv(sch, cfg, inputs);
    StoppedOnlyByStop(sch, cfg, inputs);
  }

  lemma {:induction false} DisciplinedAt(sch: Schedule, cfg: Config, t: seq<Event>, i: nat)
    requires AllDisciplined(sch, cfg, t) && i < |t|
    ensures Disciplined(sch, cfg, t[..i], t[i])
  {
    if i < |t| - 1 {
      DisciplinedAt(sch, cfg, t[..|t| - 1], i);
      assert t[..|t| - 1][..i] == t[..i];
    }
  }

  /** Whenever a spawn was asked for, no run was open, capacity was free and the scheduled entry was named. */
  lemma EverySpawnDisciplined(sch: Schedule, cfg: Config, inputs: seq<Input>, i: nat)
    requires i < |Run(sch, cfg, inputs).books.trace|
    ensures
      var t := Run(sch, cfg, inputs).books.trace;
      t[i].SpawnAsked? ==>
        && SpawnedHandles(t[..i]) == ClosedHandles(t[..i])
        && t[i].live < cfg.concurrencyCap
        && sch.enabled
        && t[i].index == Advances(t[..i]) % Modulus(sch) < |sch.workflows|
        && t[i].name == sch.workflows[t[i].index]
  {
    var t := Run(sch, cfg, inputs).books.trace;
    ReachableInv(sch, cfg, inputs);
    DisciplinedAt(sch, cfg, t, i);
    WrapIsRemainder(Advances(t[..i]), Modulus(sch));
  }

  lemma {:induction false} StoppedOnlyByStop(sch: Schedule, cfg: Config, inputs: seq<Input>)
    ensures Run(sch, cfg, inputs).state.Stopped? <==> StopCall in inputs
  {
    if inputs != [] {
      var before := inputs[..|inputs| - 1];
      StoppedOnlyByStop(sch, cfg, before);
      assert inputs == before + [inputs[|inputs| - 1]];
    }
  }

  /** Stopping is final: nothing is spawned, polled or closed afterwards. */
  lemma {:induction false} NothingAfterStop(sch: Schedule, cfg: Config, before: seq<Input>, after: seq<Input>)
    requires StopCall in before
    ensures Run(sch, cfg, before + after) == Run(sch, cfg, before)
    ensures Run(sch, cfg, before).books.active.None?
  {
    if after == [] {
      assert before + after == before;
      ReachableInv(sch, cfg, before);
      StoppedOnlyByStop(sch, cfg, before);
    } else {
      var rest := after[..|after| - 1];
      NothingAfterStop(sch, cfg, before, rest);
      assert (before + after)[..|before + after| - 1] == before + rest;
      StoppedOnlyByStop(sch, cfg, before);
    }
  }

  // ---- Why the cursor moves and why runs are closed -----------------------------------------

  function Completions(t: seq<Event>): nat {
    if t == [] then 0
    else Completions(t[..|t| - 1]) + if t[|t| - 1].Polled? && t[|t| - 1].status.Completed? then 1 else 0
  }

  /** What the run spawned last answered last, if it was asked at all. */
  function LastAnswer(t: seq<Event>): Option<RunStatus> {
    if t == [] then None
    else
      match t[|t| - 1]
      case Polled(status) => Some(status)
      case SpawnAsked(_, _, _, Spawned(_)) => None
      case _ => LastAnswer(t[..|t| - 1])
  }

  /** An advance follows a completed run that no other advance has followed; a run is closed when it no longer works. */
  predicate Earned(before: seq<Event>, e: Event) {
    && (e.Advanced? ==> Completions(before) == Advances(before) + 1)
    && (e.Polled? ==> Completions(before) == Advances(before))
    && (e.Closed? ==> LastAnswer(before).Some? && !LastAnswer(before).value.InProgress?)
  }

  predicate AllEarned(t: seq<Event>) {
    t == [] || (AllEarned(t[..|t| - 1]) && Earned(t[..|t| - 1], t[|t| - 1]))
  }

  lemma EarnedStep(t: seq<Event>, e: Event)
    ensures Completions(t + [e]) == Completions(t) + if e.Polled? && e.status.Completed? then 1 else 0
    ensures Advances(t + [e]) == Advances(t) + if e.Advanced? then 1 else 0
    ensures LastAnswer(t + [e]) == match e
      case Polled(status) => Some(status)
      case SpawnAsked(_, _, _, Spawned(_)) => None
      case _ => LastAnswer(t)
    ensures AllEarned(t + [e]) <==> AllEarned(t) && Earned(t, e)
  {
    assert (t + [e])[..|t|] == t;
  }

  /** What the trace of a loop that has not been stopped says about its state. */
  predicate Explained(m: Model) {
    && AllEarned(m.books.trace)
    && Completions(m.books.trace) == Advances(m.books.trace) + (if m.state.AdvancingWorkforce? then 1 else 0)
    && (m.state.Running? ==> LastAnswer(m.books.trace) in {None, Some(InProgress)})
    && (m.state.AdvancingWorkforce? ==> LastAnswer(m.books.trace) == Some(Completed))
  }

  lemma ReleaseEarns(sch: Schedule, k: Ledger)
    requires AllEarned(k.trace)
    requires k.active.Some? ==> LastAnswer(k.trace).Some? && !LastAnswer(k.trace).value.InProgress?
    ensures
      var k' := Release(sch, k);
      && AllEarned(k'.trace) && k'.active.None? && LastAnswer(k'.trace) == LastAnswer(k.trace)
      && Completions(k'.trace) == Completions(k.trace) && Advances(k'.trace) == Advances(k.trace)
  {
    if k.active.Some? {
      EarnedStep(k.trace, Closed(k.active.value));
    }
  }

  lemma DecideExplained(sch: Schedule, cfg: Config, k: Ledger, w: World)
    requires Runnable(sch) ==> k.cursor < |sch.workflows|
    requires AllEarned(k.trace) && Completions(k.trace) == Advances(k.trace) && k.active.None?
    ensures Explained(Decide(sch, cfg, k, w))
  {
    if Runnable(sch) && w.work.HasActionableWork() && w.live < cfg.concurrencyCap {
      EarnedStep(k.trace, SpawnAsked(k.cursor, sch.workflows[k.cursor], w.live, w.spawn));
    }
  }

  lemma PollExplained(sch: Schedule, cfg: Config, m: Model, poll: RunStatus)
    requires m.books.cursor < |sch.workflows| && m.state.Running? && m.books.active.Some? && Explained(m)
    ensures Explained(PollModel(sch, cfg, m, poll))
  {
    var name, seen := sch.workflows[m.books.cursor], Log(sch, m.books, Polled(poll));
    EarnedStep(m.books.trace, Polled(poll));
    LogFields(sch, m.books, Polled(poll));
    match poll
    case InProgress =>
    case Completed =>
    case NeedsInput(q) => RetryExplained(sch, cfg, seen, NeedsUserDecision(name, q, seen.attempts));
    case Failed(e) => RetryExplained(sch, cfg, seen, RetriesExhausted(name, seen.attempts, e));
  }

  lemma RetryExplained(sch: Schedule, cfg: Config, k: Ledger, reason: BlockedReason)
    requires AllEarned(k.trace) && Completions(k.trace) == Advances(k.trace)
    requires LastAnswer(k.trace).Some? && !LastAnswer(k.trace).value.InProgress?
    ensures Explained(RetryOrPark(sch, cfg, k, reason))
  {
    ReleaseEarns(sch, k);
  }

  lemma AdvanceExplained(sch: Schedule, cfg: Config, m: Model, w: World)
    requires Indexable(sch, m) && m.state.AdvancingWorkforce? && Explained(m)
    ensures Explained(TickModel(sch, cfg, m, w))
  {
    var released := Release(sch, m.books);
    ReleaseEarns(sch, m.books);
    EarnedStep(released.trace, Advanced);
    DecideExplained(sch, cfg, Log(sch, released, Advanced), w);
  }

  lemma StepExplained(sch: Schedule, cfg: Config, m: Model, input: Input)
    requires Inv(sch, cfg, m) && Explained(m) && !input.StopCall?
    ensures Explained(Step(sch, cfg, m, input))
  {
    match input
    case FeedCall(fb) => EarnedStep(m.books.trace, Resumed);
    case TickCall(w) =>
      match m.state {
        case Stopped =>
        case Paused(_) =>
        case Idle => DecideExplained(sch, cfg, m.books, w);
        case Evaluating => DecideExplained(sch, cfg, m.books, w);
        case Running(_, _) => PollExplained(sch, cfg, m, w.poll);
        case AdvancingWorkforce => AdvanceExplained(sch, cfg, m, w);
      }
  }

  lemma {:induction false} AlwaysExplained(sch: Schedule, cfg: Config, inputs: seq<Input>)
    requires StopCall !in inputs
    ensures Explained(Run(sch, cfg, inputs))
  {
    if inputs != [] {
      var front := inputs[..|inputs| - 1];
      AlwaysExplained(sch, cfg, front);
      ReachableInv(sch, cfg, front);
      StepExplained(sch, cfg, Run(sch, cfg, front), inputs[|inputs| - 1]);
    }
  }

  lemma {:induction false} EarnedAt(t: seq<Event>, i: nat)
    requires AllEarned(t) && i < |t|
    ensures Earned(t[..i], t[i])
  {
    if i < |t| - 1 {
      EarnedAt(t[..|t| - 1], i);
      assert t[..|t| - 1][..i] == t[..i];
    }
  }

  /**
   Until a loop is stopped, the runs polled as completed are as many as the advances, and one more exactly while
   the loop is advancing; every advance follows a completed run with no other advance in between, and every run
   closed answered last that it was completed, needed input or had failed.
   */
  lemma AdvancesAndClosesAreEarned(sch: Schedule, cfg: Config, inputs: seq<Input>, i: nat)
    requires StopCall !in inputs && i < |Run(sch, cfg, inputs).books.trace|
    ensures
      var m := Run(sch, cfg, inputs);
      var t := m.books.trace;
      && Completions(t) == Advances(t) + (if m.state.AdvancingWorkforce? then 1 else 0)
      && (t[i].Advanced? ==> Completions(t[..i]) == Advances(t[..i]) + 1)
      && (t[i].Closed? ==> LastAnswer(t[..i]).Some? && !LastAnswer(t[..i]).value.InProgress?)
  {
    AlwaysExplained(sch, cfg, inputs);
    EarnedAt(Run(sch, cfg, inputs).books.trace, i);
  }

  /** A stop adds the close of the run still open and nothing else, so the completed run of an advancing loop stays one ahead. */
  lemma StopAddsOneClose(sch: Schedule, cfg: Config, before: seq<Input>, after: seq<Input>)
    requires StopCall !in before
    ensures
      var m, t := Run(sch, cfg, before), Run(sch, cfg, before + [StopCall] + after).books.trace;
      && t == m.books.trace + (if m.books.active.Some? then [Closed(m.books.active.value)] else [])
      && Completions(t) == Advances(t) + if m.state.AdvancingWorkforce? then 1 else 0
  {
    var stopped := before + [StopCall];
    NothingAfterStop(sch, cfg, stopped, after);
    assert stopped[..|before|] == before;
    AlwaysExplained(sch, cfg, before);
    var m := Run(sch, cfg, before);
    if m.books.active.Some? {
      EarnedStep(m.books.trace, Closed(m.books.active.value));
    } else {
      assert m.books.trace + [] == m.books.trace;
    }
  }

  /** A run that is still in progress is left alone: no state, handle, cursor or attempt changes. */
  lemma RunInProgressIsLeftAlone(sch: Schedule, cfg: Config, inputs: seq<Input>, w: World)
    requires Run(sch, cfg, inputs).state.Running? && w.poll.InProgress?
    ensures
      var m, m' := Run(sch, cfg, inputs), Run(sch, cfg, inputs + [TickCall(w)]);
      m' == Model(m.state, m.books.(trace := m.books.trace + [Polled(InProgress)]))
  {
    assert (inputs + [TickCall(w)])[..|inputs|] == inputs;
  }

  /** A loop runs since the tick whose spawn succeeded, with the workflow asked for. */
  lemma RunsSinceItsSpawn(sch: Schedule, cfg: Config, inputs: seq<Input>, w: World)
    requires !Run(sch, cfg, inputs).state.Running? && Run(sch, cfg, inputs + [TickCall(w)]).state.Running?
    ensures
      var m := Run(sch, cfg, inputs + [TickCall(w)]);
      var t := m.books.trace;
      && w.spawn.Spawned? && m.books.active == Some(w.spawn.handle) && m.state == Running(m.books.cursor, w.now)
      && t != [] && t[|t| - 1] == SpawnAsked(m.books.cursor, sch.workflows[m.books.cursor], w.live, w.spawn)
  {
    assert (inputs + [TickCall(w)])[..|inputs|] == inputs;
  }

  /** The reason is the question or the error got last, with the workflow it came from. */
  predicate ParkedFor(sch: Schedule, running: bool, w: World, m: Model) {
    m.state.Paused? ==>
      match m.state.reason
      case AllRemainingWorkUserGated(items) => !running && items == w.work.userGatedPlanItems
      case NeedsUserDecision(name, question, _) =>
        running && w.poll == NeedsInput(question) && m.books.cursor < |sch.workflows| && name == sch.workflows[m.books.cursor]
      case RetriesExhausted(name, _, error) =>
        && m.books.cursor < |sch.workflows| && name == sch.workflows[m.books.cursor]
        && if running then w.poll == Failed(error) else w.spawn == SpawnFailed(error)
  }

  lemma DecideParks(sch: Schedule, cfg: Config, k: Ledger, w: World)
    requires Runnable(sch) ==> k.cursor < |sch.workflows|
    ensures ParkedFor(sch, false, w, Decide(sch, cfg, k, w))
  {
  }

  lemma PollParks(sch: Schedule, cfg: Config, m: Model, w: World)
    requires m.books.cursor < |sch.workflows| && m.state.Running?
    ensures ParkedFor(sch, true, w, PollModel(sch, cfg, m, w.poll))
  {
  }

  /** A loop parks for the question or the error that it got last, and names the workflow it got it from. */
  lemma ParksForItsAnswer(sch: Schedule, cfg: Config, inputs: seq<Input>, w: World)
    requires !Run(sch, cfg, inputs).state.Paused?
    ensures ParkedFor(sch, Run(sch, cfg, inputs).state.Running?, w, Run(sch, cfg, inputs + [TickCall(w)]))
  {
    assert (inputs + [TickCall(w)])[..|inputs|] == inputs;
    var m := Run(sch, cfg, inputs);
    match m.state
    case Stopped =>
    case Paused(_) =>
    case Idle => DecideParks(sch, cfg, m.books, w);
    case Evaluating => DecideParks(sch, cfg, m.books, w);
    case Running(_, _) => PollParks(sch, cfg, m, w);
    case AdvancingWorkforce => DecideParks(sch, cfg, Log(sch, Release(sch, m.books), Advanced), w);
  }

  /** New inbox work ends every pause; an answer ends only the wait for a decision, and only with its own question. */
  lemma FeedbackEndsPauseExactlyWhen(sch: Schedule, cfg: Config, inputs: seq<Input>, fb: ResolvingFeedback)
    requires Run(sch, cfg, inputs).state.Paused?
    ensures
      var m, m' := Run(sch, cfg, inputs), Run(sch, cfg, inputs + [FeedCall(fb)]);
      var ends := match m.state.reason
        case NeedsUserDecision(_, question, _) => fb.addedInboxWork || fb.answersDecisionFor == Some(question)
        case AllRemainingWorkUserGated(_) => fb.addedInboxWork
        case RetriesExhausted(_, _, _) => fb.addedInboxWork;
      if ends then m'.state == Evaluating && m'.books == m.books.(attempts := 0, trace := m.books.trace + [Resumed])
      else m' == m
  {
    assert (inputs + [FeedCall(fb)])[..|inputs|] == inputs;
  }

  // ---- The pause on user-gated work ---------------------------------------------------------

  predicate GatedPause(s: LoopState) {
    s.Paused? && s.reason.AllRemainingWorkUserGated?
  }

  /** Not paused, not running and not stopped: the states whose tick decides what to do. */
  predicate Deciding(s: LoopState) {
    s.Idle? || s.Evaluating? || s.AdvancingWorkforce?
  }

  /**
   The doc comment lets the loop pause on user-gated work after K attempts. What makes it pause is the assessment
   alone, and the attempts have then always stayed below max(K, 1).
   */
  lemma GatedPauseExactlyWhen(sch: Schedule, cfg: Config, inputs: seq<Input>, w: World)
    requires Deciding(Run(sch, cfg, inputs).state)
    ensures
      var m := Run(sch, cfg, inputs + [TickCall(w)]);
      && (GatedPause(m.state) <==> Runnable(sch) && w.work.IsFullyUserGated())
      && (GatedPause(m.state) ==>
            m.state.reason.pendingPlanItems == w.work.userGatedPlanItems && m.books.attempts < Budget(cfg))
  {
    assert (inputs + [TickCall(w)])[..|inputs|] == inputs;
    ReachableInv(sch, cfg, inputs + [TickCall(w)]);
  }

  /** A fresh loop with a budget of three pauses on its first tick, with no attempt made. */
  lemma GatedPauseWithoutAttempt()
    ensures
      var sch, cfg := Schedule(["build"], true), Config(3, 1);
      var w := World(0, InProgress, WorkAssessment(0, 0, ["sign off"]), 0, CapacityExceeded(1, 0));
      Run(sch, cfg, [TickCall(w)]) == Model(Paused(AllRemainingWorkUserGated(["sign off"])), Ledger(None, 0, 0, []))
  {
    var w := World(0, InProgress, WorkAssessment(0, 0, ["sign off"]), 0, CapacityExceeded(1, 0));
    var inputs := [TickCall(w)];
    assert inputs[..0] == [];
    assert Run(Schedule(["build"], true), Config(3, 1), inputs[..0]) == Init();
  }

  // ---- A workforce that always fails --------------------------------------------------------

  predicate FailingTick(cfg: Config, input: Input) {
    && input.TickCall?
    && input.world.work.HasActionableWork()
    && input.world.live < cfg.concurrencyCap
    && input.world.spawn.Spawned?
    && input.world.poll.Failed?
  }

  /** Where `n` ticks of a workforce that always fails have brought the loop. */
  predicate AfterFailing(sch: Schedule, cfg: Config, n: nat, m: Model) {
    && m.books.attempts == |ClosedHandles(m.books.trace)| == n / 2
    && |SpawnedHandles(m.books.trace)| == (n + 1) / 2
    && m.books.cursor == 0
    && (m.books.active.Some? <==> n % 2 == 1)
    && (m.state.Running? <==> n % 2 == 1)
    && (n % 2 == 0 && n < 2 * Budget(cfg) ==> m.state.Idle? || m.state.Evaluating?)
    && (m.state.Paused? <==> n == 2 * Budget(cfg))
  }

  lemma FailingPollStep(sch: Schedule, cfg: Config, n: nat, m: Model, w: World)
    requires Runnable(sch) && n < 2 * Budget(cfg) && n % 2 == 1
    requires AfterFailing(sch, cfg, n, m) && FailingTick(cfg, TickCall(w))
    ensures AfterFailing(sch, cfg, n + 1, PollModel(sch, cfg, m, w.poll))
    ensures n + 1 == 2 * Budget(cfg) ==>
      PollModel(sch, cfg, m, w.poll).state == Paused(RetriesExhausted(sch.workflows[0], Budget(cfg), w.poll.error))
  {
    var k := m.books;
    TraceStep(sch, cfg, k.trace, Polled(w.poll));
    TraceStep(sch, cfg, k.trace + [Polled(w.poll)], Closed(k.active.value));
  }

  lemma FailingSpawnStep(sch: Schedule, cfg: Config, n: nat, m: Model, w: World)
    requires Runnable(sch) && n < 2 * Budget(cfg) && n % 2 == 0
    requires AfterFailing(sch, cfg, n, m) && FailingTick(cfg, TickCall(w))
    ensures AfterFailing(sch, cfg, n + 1, Decide(sch, cfg, m.books, w))
  {
    var k := m.books;
    TraceStep(sch, cfg, k.trace, SpawnAsked(k.cursor, sch.workflows[k.cursor], w.live, w.spawn));
  }

  lemma FailingTickStep(sch: Schedule, cfg: Config, n: nat, m: Model, w: World)
    requires Runnable(sch) && Indexable(sch, m) && n < 2 * Budget(cfg)
    requires AfterFailing(sch, cfg, n, m) && FailingTick(cfg, TickCall(w))
    ensures AfterFailing(sch, cfg, n + 1, TickModel(sch, cfg, m, w))
    ensures n + 1 == 2 * Budget(cfg) ==>
      TickModel(sch, cfg, m, w).state == Paused(RetriesExhausted(sch.workflows[0], Budget(cfg), w.poll.error))
  {
    if n % 2 == 1 {
      FailingPollStep(sch, cfg, n, m, w);
    } else {
      FailingSpawnStep(sch, cfg, n, m, w);
    }
  }

  function FailingError(cfg: Config, input: Input): string
    requires FailingTick(cfg, input)
  {
    input.world.poll.error
  }

  /** With work and capacity always there, a run that fails at every first poll costs two ticks and one
      attempt; the loop parks at tick 2·max(K,1) and not before, after that many spawns and closes. */
  lemma {:induction false} FailingRunsParkAtTwiceBudget(sch: Schedule, cfg: Config, inputs: seq<Input>)
    requires Runnable(sch) && |inputs| <= 2 * Budget(cfg)
    requires forall i :: 0 <= i < |inputs| ==> FailingTick(cfg, inputs[i])
    ensures AfterFailing(sch, cfg, |inputs|, Run(sch, cfg, inputs))
    ensures |inputs| == 2 * Budget(cfg) ==>
      Run(sch, cfg, inputs).state
      == Paused(RetriesExhausted(sch.workflows[0], Budget(cfg), FailingError(cfg, inputs[|inputs| - 1])))
  {
    if inputs != [] {
      var before := inputs[..|inputs| - 1];
      FailingRunsParkAtTwiceBudget(sch, cfg, before);
      assert FailingTick(cfg, inputs[|inputs| - 1]);
      FailingTickStep(sch, cfg, |before|, Run(sch, cfg, before), inputs[|inputs| - 1].world);
    }
  }

  // ---- The controller -----------------------------------------------------------------------

  class LoopController {
    const schedule: Schedule
    const config: Config
    var state: LoopState
    var active: Option<Handle>
    var attempts: u32
    var cursor: nat
    ghost var trace: seq<Event>

    ghost function View(): Model
      reads this
    {
      Model(state, Books())
    }

    ghost function Books(): Ledger
      reads this
    {
      Ledger(active, attempts as nat, cursor, trace)
    }

    ghost predicate Valid()
      reads this
    {
      Inv(schedule, config, View())
    }

    constructor (schedule: Schedule, config: Config)
      ensures Valid() && View() == Init()
      ensures this.schedule == schedule && this.config == config
    {
      this.schedule, this.config := schedule, config;
      state, active, attempts, cursor, trace := Idle, None, 0, 0, [];
    }

    method Tick(w: World) returns (next: LoopState)
      requires Valid()
      modifies this
      ensures Valid() && next == state
      ensures View() == TickModel(schedule, config, old(View()), w)
    {
      TickKeepsInv(schedule, config, View(), w);
      state := Transition(w);
      next := state;
    }

    /** The match over the current state; the caller installs the state it returns. */
    method Transition(w: World) returns (next: LoopState)
      requires Indexable(schedule, View())
      requires active.Some? <==> state.Running? || state.AdvancingWorkforce?
      requires !state.Stopped? && !state.Paused? ==> attempts as nat < Budget(config)
      modifies this
      ensures state == old(state)
      ensures Model(next, Books()) == TickModel(schedule, config, old(View()), w)
    {
      match state
      case Stopped =>
        next := Stopped;
      case Paused(reason) =>
        next := Paused(reason);
      case Idle =>
        next := Evaluate(w);
      case Evaluating =>
        next := Evaluate(w);
      case Running(_, _) =>
        next := Poll(w);
      case AdvancingWorkforce =>
        CloseActive();
        var n := if |schedule.workflows| == 0 then 1 else |schedule.workflows|;
        WrapIsRemainder(cursor + 1, n);
        cursor := (cursor + 1) % n;
        trace := trace + [Advanced];
        next := Evaluate(w);
    }

    /** Polls the live run; the caller installs the state it returns. */
    method Poll(w: World) returns (next: LoopState)
      requires state.Running? && cursor < |schedule.workflows| && attempts as nat < Budget(config)
      modifies this
      ensures state == old(state)
      ensures Model(next, Books()) == PollModel(schedule, config, old(View()), w.poll)
    {
      trace := trace + [Polled(w.poll)];
      match w.poll
      case InProgress =>
        next := state;
      case Completed =>
        attempts := 0;
        next := AdvancingWorkforce;
      case NeedsInput(question) =>
        attempts := attempts + 1;
        if attempts < config.maxAutonomousAttempts {
          CloseActive();
          next := Evaluating;
        } else {
          next := Pause(NeedsUserDecision(schedule.workflows[cursor], question, attempts as nat));
        }
      case Failed(error) =>
        attempts := attempts + 1;
        if attempts < config.maxAutonomousAttempts {
          CloseActive();
          next := Evaluating;
        } else {
          next := Pause(RetriesExhausted(schedule.workflows[cursor], attempts as nat, error));
        }
    }

    /** The decision hub; the caller installs the state it returns. */
    method Evaluate(w: World) returns (next: LoopState)
      requires active.None? && attempts as nat < Budget(config)
      requires Runnable(schedule) ==> cursor < |schedule.workflows|
      modifies this
      ensures state == old(state)
      ensures Model(next, Books()) == Decide(schedule, config, old(Books()), w)
    {
      if !schedule.enabled || schedule.workflows == [] {
        return Idle;
      }
      if !w.work.HasActionableWork() {
        if w.work.IsFullyUserGated() {
          next := Pause(AllRemainingWorkUserGated(w.work.userGatedPlanItems));
          return;
        }
        return Idle;
      }
      if w.live >= config.concurrencyCap {
        return Evaluating;
      }
      var index := cursor;
      var name := schedule.workflows[index];
      trace := trace + [SpawnAsked(index, name, w.live, w.spawn)];
      match w.spawn
      case Spawned(handle) =>
        active := Some(handle);
        next := Running(index, w.now);
      case CapacityExceeded(_, _) =>
        next := Evaluating;
      case SpawnFailed(error) =>
        attempts := attempts + 1;
        if attempts < config.maxAutonomousAttempts {
          next := Evaluating;
        } else {
          next := Pause(RetriesExhausted(name, attempts as nat, error));
        }
    }

    /** Closes the live run, if any, leaving everything else alone. */
    method CloseActive()
      modifies this`active, this`trace
      ensures Books() == Release(schedule, old(Books()))
    {
      if active.Some? {
        trace := trace + [Closed(active.value)];
        active := None;
      }
    }

    method Pause(reason: BlockedReason) returns (next: LoopState)
      modifies this`active, this`trace
      ensures Model(next, Books()) == Park(schedule, old(Books()), reason)
    {
      CloseActive();
      next := Paused(reason);
    }

    method Feed(fb: ResolvingFeedback) returns (next: LoopState)
      requires Valid()
      modifies this
      ensures Valid() && next == state
      ensures View() == FeedModel(schedule, old(View()), fb)
    {
      FeedKeepsInv(schedule, config, View(), fb);
      if state.Paused? {
        var resolved := match state.reason
          case AllRemainingWorkUserGated(_) => fb.addedInboxWork
          case NeedsUserDecision(_, question, _) => fb.answersDecisionFor == Some(question) || fb.addedInboxWork
          case RetriesExhausted(_, _, _) => fb.addedInboxWork;
        if resolved {
          attempts := 0;
          state := Evaluating;
          trace := trace + [Resumed];
        }
      }
      next := state;
    }

    method Stop() returns (next: LoopState)
      requires Valid()
      modifies this
      ensures Valid() && next == state
      ensures View() == StopModel(schedule, old(View()))
    {
      StopKeepsInv(schedule, config, View());
      CloseActive();
      state := Stopped;
      next := state;
    }
  }
}
