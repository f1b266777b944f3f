/**
 The loop watchdog (`crates/orrch-core/src/loop_watchdog.rs`): it classifies loops and keeps one escalation counter per
 loop. Times are nanoseconds; `u32` additions wrap, as in a release build.
 */
module Watchdog {
  import opened Options

  const TWO_TO_32: nat := 0x1_0000_0000
  type u32 = x: nat | x < TWO_TO_32

  function WrappingAdd(a: u32, b: u32): u32 {
    if a + b < TWO_TO_32 then a + b else a + b - TWO_TO_32
  }

  /** The largest `std::time::Duration`, in nanoseconds. */
  const MAX_DURATION: nat := 0x1_0000_0000_0000_0000 * 1_000_000_000 - 1
  type Duration = x: nat | x <= MAX_DURATION

  datatype LoopId = LoopId(name: string)

  datatype SessionView = SessionView(sid: string, lastOutput: Option<nat>, spawnedAt: nat, dead: bool)

  datatype LoopView = LoopView(
    loopId: LoopId, sessions: seq<SessionView>, spawns: u32, deaths: u32, planItemsChecked: u32, commits: u32,
    noProgressWindows: u32)

  datatype Config = Config(livenessTimeout: Duration, stuckWindows: u32, thrashSpawnDeaths: u32, backoffBase: Duration)

  datatype Health =
    | Healthy
    | Hung(sid: string, staleNanos: nat)
    | Stuck(noProgressWindows: u32)
    | Thrash(spawns: u32, deaths: u32)

  datatype Fault = NoOutput(seconds: nat) | RestartStorm(spawns: u32, deaths: u32) | NoProgress(windows: u32)

  datatype Intervention =
    | KillRestart(loopId: LoopId, sid: string, reason: Fault)
    | BackOff(loopId: LoopId, wait: Duration, reason: Fault)
    | PauseWithFault(loopId: LoopId, fault: Fault)
    | Escalate(loopId: LoopId, fault: Fault)

  // ---- Classification -----------------------------------------------------------------------

  /** How long a session has been silent; a clock behind its last output gives none. */
  function Stale(s: SessionView, now: nat): nat {
    var last := if s.lastOutput.Some? then s.lastOutput.value else s.spawnedAt;
    if last <= now then now - last else 0
  }

  predicate Silent(s: SessionView, now: nat, timeout: nat) {
    !s.dead && Stale(s, now) > timeout
  }

  /** Index `k` is the first of the sessions that have been silent the longest. */
  ghost predicate FirstSilentLongest(sessions: seq<SessionView>, k: nat, now: nat, timeout: nat) {
    && k < |sessions| && Silent(sessions[k], now, timeout)
    && forall j :: 0 <= j < |sessions| && Silent(sessions[j], now, timeout) ==>
         Stale(sessions[j], now) < Stale(sessions[k], now)
         || (Stale(sessions[j], now) == Stale(sessions[k], now) && k <= j)
  }

  predicate Thrashing(lv: LoopView, c: Config) {
    WrappingAdd(lv.spawns, lv.deaths) >= c.thrashSpawnDeaths && lv.planItemsChecked == 0 && lv.commits == 0
  }

  /** Liveness wins over thrash, and thrash over stuck. */
  ghost predicate Classified(lv: LoopView, c: Config, now: nat, health: Health) {
    if exists k :: 0 <= k < |lv.sessions| && Silent(lv.sessions[k], now, c.livenessTimeout) then
      exists k: nat :: FirstSilentLongest(lv.sessions, k, now, c.livenessTimeout)
        && health == Hung(lv.sessions[k].sid, Stale(lv.sessions[k], now))
    else if Thrashing(lv, c) then health == Thrash(lv.spawns, lv.deaths)
    else if lv.noProgressWindows >= c.stuckWindows then health == Stuck(lv.noProgressWindows)
    else health == Healthy
  }

  lemma OneClassification(lv: LoopView, c: Config, now: nat, a: Health, b: Health)
    requires Classified(lv, c, now, a) && Classified(lv, c, now, b)
    ensures a == b
  {
    if exists k :: 0 <= k < |lv.sessions| && Silent(lv.sessions[k], now, c.livenessTimeout) {
      var k: nat :| FirstSilentLongest(lv.sessions, k, now, c.livenessTimeout)
        && a == Hung(lv.sessions[k].sid, Stale(lv.sessions[k], now));
      var j: nat :| FirstSilentLongest(lv.sessions, j, now, c.livenessTimeout)
        && b == Hung(lv.sessions[j].sid, Stale(lv.sessions[j], now));
      assert k == j;
    }
  }

  method Classify(lv: LoopView, c: Config, now: nat) returns (health: Health)
    ensures Classified(lv, c, now, health)
  {
    var worst: Option<(string, nat)> := None;
    ghost var k: nat := 0;
    var i := 0;
    while i < |lv.sessions|
      invariant i <= |lv.sessions|
      invariant worst.None? ==> forall j :: 0 <= j < i ==> !Silent(lv.sessions[j], now, c.livenessTimeout)
      invariant worst.Some? ==>
        FirstSilentLongest(lv.sessions[..i], k, now, c.livenessTimeout)
        && worst.value == (lv.sessions[k].sid, Stale(lv.sessions[k], now))
    {
      var s := lv.sessions[i];
      if !s.dead {
        var stale := Stale(s, now);
        if stale > c.livenessTimeout && (worst.None? || stale > worst.value.1) {
          worst := Some((s.sid, stale));
          k := i;
        }
      }
      i := i + 1;
    }
    if worst.Some? {
      assert lv.sessions[..i] == lv.sessions;
      assert Silent(lv.sessions[k], now, c.livenessTimeout);
      return Hung(worst.value.0, worst.value.1);
    }
    var churn := WrappingAdd(lv.spawns, lv.deaths);
    if churn >= c.thrashSpawnDeaths && lv.planItemsChecked == 0 && lv.commits == 0 {
      return Thrash(lv.spawns, lv.deaths);
    }
    if lv.noProgressWindows >= c.stuckWindows {
      return Stuck(lv.noProgressWindows);
    }
    health := Healthy;
  }

  // ---- What the classes mean ----------------------------------------------------------------

  /** Silence counts from the last output, and from the spawn only of a session that never wrote. */
  lemma SilenceCountsFrom(s: SessionView, now: nat, timeout: nat)
    ensures s.lastOutput.Some? ==>
              (Silent(s, now, timeout) <==> !s.dead && s.lastOutput.value + timeout < now)
              && (s.lastOutput.value <= now ==> s.lastOutput.value + Stale(s, now) == now)
    ensures s.lastOutput.None? ==>
              (Silent(s, now, timeout) <==> !s.dead && s.spawnedAt + timeout < now)
              && (s.spawnedAt <= now ==> s.spawnedAt + Stale(s, now) == now)
  {
  }

  /** This session is alive and was last heard `silence` before `now`. */
  ghost predicate LastHeard(s: SessionView, silence: int, now: nat) {
    && !s.dead
    && (s.lastOutput.Some? ==> s.lastOutput.value + silence == now)
    && (s.lastOutput.None? ==> s.spawnedAt + silence == now)
  }

  /** A hung verdict names the first of the live sessions silent the longest, and that silence is past the timeout. */
  lemma HungNamesLongestSilence(lv: LoopView, c: Config, now: nat, health: Health)
    requires Classified(lv, c, now, health) && health.Hung?
    ensures health.staleNanos > c.livenessTimeout
    ensures exists k ::
              && 0 <= k < |lv.sessions| && lv.sessions[k].sid == health.sid
              && LastHeard(lv.sessions[k], health.staleNanos, now)
              && (forall j, t :: 0 <= j < |lv.sessions| && LastHeard(lv.sessions[j], t, now) ==>
                    t < health.staleNanos || (t == health.staleNanos && k <= j))
  {
    var k: nat :| FirstSilentLongest(lv.sessions, k, now, c.livenessTimeout)
      && health == Hung(lv.sessions[k].sid, Stale(lv.sessions[k], now));
    SilenceCountsFrom(lv.sessions[k], now, c.livenessTimeout);
    forall j, t | 0 <= j < |lv.sessions| && LastHeard(lv.sessions[j], t, now)
      ensures t < health.staleNanos || (t == health.staleNanos && k <= j)
    {
      SilenceCountsFrom(lv.sessions[j], now, c.livenessTimeout);
    }
  }

  /** Each class in the view's own terms; `u32` sums are remainders. */
  lemma ClassExactlyWhen(lv: LoopView, c: Config, now: nat, health: Health)
    requires Classified(lv, c, now, health)
    ensures health.Hung? <==>
            exists j, t :: 0 <= j < |lv.sessions| && LastHeard(lv.sessions[j], t, now) && t > c.livenessTimeout
    ensures health.Thrash? <==>
            && !health.Hung? && (lv.spawns + lv.deaths) % 4294967296 >= c.thrashSpawnDeaths
            && lv.planItemsChecked == 0 && lv.commits == 0
    ensures health.Thrash? ==> health.spawns == lv.spawns && health.deaths == lv.deaths
    ensures health.Stuck? <==> !health.Hung? && !health.Thrash? && lv.noProgressWindows >= c.stuckWindows
    ensures health.Stuck? ==> health.noProgressWindows == lv.noProgressWindows
  {
    if exists j, t :: 0 <= j < |lv.sessions| && LastHeard(lv.sessions[j], t, now) && t > c.livenessTimeout {
      var j, t :| 0 <= j < |lv.sessions| && LastHeard(lv.sessions[j], t, now) && t > c.livenessTimeout;
      SilenceCountsFrom(lv.sessions[j], now, c.livenessTimeout);
      assert Silent(lv.sessions[j], now, c.livenessTimeout);
    }
    if health.Hung? {
      HungNamesLongestSilence(lv, c, now, health);
    }
  }

  // ---- The ladder ---------------------------------------------------------------------------

  /** One loop classified during some `evaluate` call; `History` is all of them in order. */
  datatype Event = Event(loopId: LoopId, health: Health)

  type History = seq<Event>

  /** Thrash and Stuck verdicts of this loop since its last Healthy one. */
  function Strikes(h: History, id: LoopId): nat {
    if h == [] then 0
    else
      var front, last := h[..|h| - 1], h[|h| - 1];
      if last.loopId != id || last.health.Hung? then Strikes(front, id)
      else if last.health.Healthy? then 0
      else Strikes(front, id) + 1
  }

  /** `n` as a `u32` that has wrapped as often as needed. */
  function Wrap(n: nat): u32 {
    if n < TWO_TO_32 then n else Wrap(n - TWO_TO_32)
  }

  lemma {:induction false} WrapSucc(n: nat)
    ensures Wrap(n + 1) == WrappingAdd(Wrap(n), 1)
  {
    if n >= TWO_TO_32 {
      WrapSucc(n - TWO_TO_32);
    }
  }

  function Pow2(n: nat): nat {
    if n == 0 then 1 else 2 * Pow2(n - 1)
  }

  function Exponent(streak: u32): nat {
    var e := if streak == 0 then 0 else streak - 1;
    if e < 10 then e else 10
  }

  /** Multiplying a `Duration` panics on overflow. */
  function Backoff(base: Duration, streak: u32): Duration
    requires base * Pow2(Exponent(streak)) <= MAX_DURATION
  {
    base * Pow2(Exponent(streak))
  }

  /** What one verdict leads to, when it makes the loop's strikes `n`. */
  function Response(id: LoopId, health: Health, n: nat, base: Duration): Option<Intervention> {
    match health
    case Healthy => None
    case Hung(sid, stale) => Some(KillRestart(id, sid, NoOutput(stale / 1_000_000_000)))
    case Thrash(spawns, deaths) =>
      if Wrap(n) == 1 then Some(BackOff(id, base, RestartStorm(spawns, deaths)))
      else if Wrap(n) == 2 then Some(PauseWithFault(id, RestartStorm(spawns, deaths)))
      else Some(Escalate(id, RestartStorm(spawns, deaths)))
    case Stuck(windows) =>
      if Wrap(n) <= 1 then Some(BackOff(id, base, NoProgress(windows)))
      else Some(PauseWithFault(id, NoProgress(windows)))
  }

  /** The interventions for the events of `h` from number `from` on. */
  function Emitted(h: History, from: nat, base: Duration): seq<Intervention>
    requires from <= |h|
  {
    if |h| == from then []
    else
      var front, last := h[..|h| - 1], h[|h| - 1];
      var response := Response(last.loopId, last.health, Strikes(h, last.loopId), base);
      Emitted(front, from, base) + if response.Some? then [response.value] else []
  }

  class LoopWatchdog {
    const config: Config
    var streaks: map<LoopId, u32>
    ghost var history: History

    constructor (config: Config)
      ensures Valid() && history == [] && this.config == config
    {
      this.config := config;
      streaks, history := map[], [];
    }

    function Streak(id: LoopId): u32
      reads this
    {
      if id in streaks then streaks[id] else 0
    }

    /** Every streak is the strikes of its loop, up to wrap-around. */
    ghost predicate Valid()
      reads this
    {
      forall id :: Streak(id) == Wrap(Strikes(history, id))
    }

    method Bump(id: LoopId) returns (streak: u32)
      modifies this`streaks
      ensures streak == WrappingAdd(old(Streak(id)), 1)
      ensures streaks == old(streaks)[id := streak]
    {
      if id !in streaks {
        streaks := streaks[id := 0];
      }
      streaks := streaks[id := WrappingAdd(streaks[id], 1)];
      streak := streaks[id];
    }

    /** One step of the loop in `evaluate`. */
    method React(id: LoopId, health: Health) returns (i: Option<Intervention>)
      requires Valid()
      modifies this
      ensures Valid() && history == old(history) + [Event(id, health)]
      ensures i == Response(id, health, Strikes(history, id), config.backoffBase)
    {
      ghost var before := history;
      history := history + [Event(id, health)];
      assert history[..|before|] == before;
      WrapSucc(Strikes(before, id));
      match health {
        case Healthy =>
          streaks := streaks - {id};
          i := None;
        case Hung(sid, stale) =>
          i := Some(KillRestart(id, sid, NoOutput(stale / 1_000_000_000)));
        case Thrash(spawns, deaths) =>
          var streak := Bump(id);
          if streak == 1 {
            i := Some(BackOff(id, Backoff(config.backoffBase, streak), RestartStorm(spawns, deaths)));
          } else if streak == 2 {
            i := Some(PauseWithFault(id, RestartStorm(spawns, deaths)));
          } else {
            i := Some(Escalate(id, RestartStorm(spawns, deaths)));
          }
        case Stuck(windows) =>
          var streak := Bump(id);
          if streak <= 1 {
            i := Some(BackOff(id, Backoff(config.backoffBase, streak), NoProgress(windows)));
          } else {
            i := Some(PauseWithFault(id, NoProgress(windows)));
          }
      }
    }

    /** Every loop of the view is classified once, in view order; `clock` holds what the clock says each time. */
    method Evaluate(view: seq<LoopView>, clock: seq<nat>) returns (out: seq<Intervention>)
      requires Valid() && |clock| == |view|
      modifies this
      ensures Valid() && |history| == |old(history)| + |view| && old(history) <= history
      ensures forall j :: 0 <= j < |view| ==>
        history[|old(history)| + j].loopId == view[j].loopId
        && Classified(view[j], config, clock[j], history[|old(history)| + j].health)
      ensures out == Emitted(history, |old(history)|, config.backoffBase)
    {
      out := [];
      ghost var start := |history|;
      var n := 0;
      while n < |view|
        invariant n <= |view| && Valid()
        invariant |history| == start + n && old(history) <= history
        invariant forall j :: 0 <= j < n ==>
          history[start + j].loopId == view[j].loopId && Classified(view[j], config, clock[j], history[start + j].health)
        invariant out == Emitted(history, start, config.backoffBase)
      {
        ghost var before := history;
        var health := Classify(view[n], config, clock[n]);
        var i := React(view[n].loopId, health);
        assert history[..|before|] == before;
        if i.Some? {
          out := out + [i.value];
        }
        n := n + 1;
      }
    }
  }

  // ---- What the interventions mean ----------------------------------------------------------

  /** Every loop that is not healthy, in order. */
  function Unhealthy(h: History, from: nat): seq<LoopId>
    requires from <= |h|
  {
    if |h| == from then []
    else Unhealthy(h[..|h| - 1], from) + if h[|h| - 1].health.Healthy? then [] else [h[|h| - 1].loopId]
  }

  function Targets(out: seq<Intervention>): seq<LoopId> {
    if out == [] then [] else Targets(out[..|out| - 1]) + [out[|out| - 1].loopId]
  }

  /** Exactly one intervention per unhealthy loop, in view order. */
  lemma {:induction false} OneInterventionPerUnhealthyLoop(h: History, from: nat, base: Duration)
    requires from <= |h|
    ensures Targets(Emitted(h, from, base)) == Unhealthy(h, from)
  {
    if |h| > from {
      var front, last := h[..|h| - 1], h[|h| - 1];
      OneInterventionPerUnhealthyLoop(front, from, base);
      var n := Strikes(h, last.loopId);
      OneTarget(Emitted(front, from, base), last, n, base);
    }
  }

  lemma OneTarget(out: seq<Intervention>, e: Event, n: nat, base: Duration)
    ensures
      var response := Response(e.loopId, e.health, n, base);
      Targets(out + if response.Some? then [response.value] else [])
      == Targets(out) + if e.health.Healthy? then [] else [e.loopId]
  {
    var response := Response(e.loopId, e.health, n, base);
    TargetIsLoop(e.loopId, e.health, n, base);
    if response.Some? {
      TargetsSnoc(out, response.value);
    } else {
      assert out + [] == out && Targets(out) + [] == Targets(out);
    }
  }

  lemma TargetIsLoop(id: LoopId, health: Health, n: nat, base: Duration)
    ensures
      var response := Response(id, health, n, base);
      (response.None? <==> health.Healthy?) && (response.Some? ==> response.value.loopId == id)
  {
  }

  lemma TargetsSnoc(out: seq<Intervention>, i: Intervention)
    ensures Targets(out + [i]) == Targets(out) + [i.loopId]
  {
    assert (out + [i])[..|out|] == out;
  }

  lemma {:induction false} WrapSmall(n: nat)
    ensures n < TWO_TO_32 ==> Wrap(n) == n
    ensures Wrap(n) <= n
  {
    if n >= TWO_TO_32 {
      WrapSmall(n - TWO_TO_32);
    }
  }

  lemma StrikesOfStrike(h: History, e: Event)
    requires e.health.Thrash? || e.health.Stuck?
    ensures Strikes(h + [e], e.loopId) == Strikes(h, e.loopId) + 1
  {
    assert (h + [e])[..|h|] == h;
  }

  /** A strike adds one, a healthy verdict clears them, and hung verdicts and other loops leave them as they are. */
  lemma StrikesStep(h: History, e: Event, id: LoopId)
    ensures Strikes([], id) == 0
    ensures e.loopId != id ==> Strikes(h + [e], id) == Strikes(h, id)
    ensures e.loopId == id ==>
              match e.health
              case Healthy => Strikes(h + [e], id) == 0
              case Hung(_, _) => Strikes(h + [e], id) == Strikes(h, id)
              case _ => Strikes(h + [e], id) == Strikes(h, id) + 1
  {
    assert (h + [e])[..|h|] == h;
  }

  /** The wait doubles with each strike and stays at 1024 times the base from the eleventh on. */
  lemma WaitDoubles(streak: u32)
    ensures streak <= 1 ==> Pow2(Exponent(streak)) == 1
    ensures 2 <= streak <= 11 ==> Pow2(Exponent(streak)) == 2 * Pow2(Exponent(streak - 1))
    ensures streak >= 11 ==> Pow2(Exponent(streak)) == 1024
  {
    assert Pow2(5) == 32 && Pow2(10) == 32 * Pow2(5);
  }

  /** A hung session is killed for its whole seconds of silence; the other reasons carry the view's own counts. */
  lemma ReasonsNameTheFault(id: LoopId, health: Health, n: nat, base: Duration)
    ensures health.Hung? ==>
              exists s: nat ::
                && Response(id, health, n, base) == Some(KillRestart(id, health.sid, NoOutput(s)))
                && s * 1000000000 <= health.staleNanos < (s + 1) * 1000000000
    ensures health.Thrash? ==>
              var fault := RestartStorm(health.spawns, health.deaths);
              Response(id, health, n, base)
              in {Some(BackOff(id, base, fault)), Some(PauseWithFault(id, fault)), Some(Escalate(id, fault))}
    ensures health.Stuck? ==>
              var fault := NoProgress(health.noProgressWindows);
              Response(id, health, n, base) in {Some(BackOff(id, base, fault)), Some(PauseWithFault(id, fault))}
  {
    if health.Hung? {
      var s := health.staleNanos / 1000000000;
      assert Response(id, health, n, base) == Some(KillRestart(id, health.sid, NoOutput(s)));
    }
  }

  ghost predicate LadderHolds(h: History, e: Event, base: Duration) {
    var n := Strikes(h + [e], e.loopId);
    var response := Response(e.loopId, e.health, n, base);
    && (response.Some? && response.value.Escalate? ==> e.health.Thrash? && n >= 3)
    && (response.Some? && response.value.BackOff? ==> response.value.wait == base)
    && (n < 4294967296 && response.Some? ==>
          && (response.value.BackOff? <==> !e.health.Hung? && n == 1)
          && (response.value.Escalate? <==> e.health.Thrash? && n >= 3)
          && (response.value.PauseWithFault? <==> (e.health.Thrash? && n == 2) || (e.health.Stuck? && n >= 2)))
  }

  /**
   Escalation comes from the third strike on and only for thrashing, every back-off waits exactly the base, and
   below 2^32 strikes the first strike backs off, the second pauses and the third escalates (a stuck loop only pauses).
   */
  lemma LadderByStrikes(h: History, e: Event, base: Duration)
    ensures LadderHolds(h, e, base)
  {
    var n := Strikes(h + [e], e.loopId);
    WrapSmall(n);
    if e.health.Thrash? || e.health.Stuck? {
      StrikesOfStrike(h, e);
      NotEscalatedEarly(n);
    }
  }

  lemma NotEscalatedEarly(n: nat)
    requires n >= 1
    ensures n < 3 ==> Wrap(n) == n
  {
    WrapSmall(n);
  }

  lemma {:induction false} WrapIsRemainder(n: nat)
    ensures Wrap(n) == n % TWO_TO_32
  {
    if n >= TWO_TO_32 {
      WrapIsRemainder(n - TWO_TO_32);
    }
  }

  /** What the next strike of a loop leads to, for every number of strikes before it. */
  ghost predicate LadderOf(e: Event, n: nat, base: Duration) {
    var response := Response(e.loopId, e.health, n, base);
    && response.Some?
    && (e.health.Thrash? ==>
          && (response.value.Escalate? <==> n % 4294967296 != 1 && n % 4294967296 != 2)
          && (response.value.BackOff? <==> n % 4294967296 == 1)
          && (response.value.PauseWithFault? <==> n % 4294967296 == 2))
    && (e.health.Stuck? ==>
          && (response.value.PauseWithFault? <==> n % 4294967296 != 0 && n % 4294967296 != 1)
          && (response.value.BackOff? <==> n % 4294967296 == 0 || n % 4294967296 == 1))
  }

  /**
   The ladder starts again after 2^32 strikes: which step a strike takes depends on its number modulo 2^32 alone,
   and a multiple of 2^32 backs a stuck loop off and escalates a thrashing one.
   */
  lemma LadderWrapsAround(h: History, e: Event, base: Duration)
    requires e.health.Thrash? || e.health.Stuck?
    ensures Strikes(h + [e], e.loopId) == Strikes(h, e.loopId) + 1
    ensures LadderOf(e, Strikes(h + [e], e.loopId), base)
  {
    StrikesOfStrike(h, e);
    WrapIsRemainder(Strikes(h + [e], e.loopId));
  }

  /** Any number of strikes is reached, so the wrapped steps are as well. */
  lemma {:induction false} StrikesReach(id: LoopId, health: Health, n: nat)
    requires health.Thrash? || health.Stuck?
    ensures Strikes(seq(n, i => Event(id, health)), id) == n
  {
    if n > 0 {
      StrikesReach(id, health, n - 1);
      assert seq(n, i => Event(id, health)) == seq(n - 1, i => Event(id, health)) + [Event(id, health)];
      StrikesOfStrike(seq(n - 1, i => Event(id, health)), Event(id, health));
    }
  }
}
