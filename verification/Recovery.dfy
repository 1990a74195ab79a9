/** The recovery rules of the OpenBFDD supervisor, as functions on values.

    One episode per expected session climbs a ladder of backoffs, then opens a circuit;
    all sessions share one restart budget for the child process. Time is a natural number
    and 0 stands for the zero time, so every clock reading is positive. */
module Recovery {
  import opened Common

  type Time = nat

  datatype Pair = Pair(local: string, remote: string)

  datatype SessionState = NoState | SessionUp | SessionDown | SessionInit | SessionAdminDown

  datatype Session = Session(pair: Pair, state: SessionState)

  datatype Phase = RecoveryUp | RecoveryGrace | RecoveryBackoff | RecoveryCircuitOpen

  datatype Action = RecoveryNone | RecoveryReplay | RecoveryReset | RecoveryRestartChild

  datatype Result = NoResult | InProgress | Success | Error(text: string)

  datatype Config = Config(
    expected: seq<Pair>, gracePeriod: nat, stablePeriod: nat,
    backoffs: seq<nat>, childBackoffs: seq<nat>, circuitOpen: nat, persist: bool)

  datatype Episode = Episode(
    pair: Pair, state: SessionState, phase: Phase, attempts: nat, lastAction: Action, lastResult: Result,
    nextRetry: Time, failingSince: Time, stableSince: Time, circuitUntil: Time)

  /** The restart budget of the child process. */
  datatype Child = Child(attempts: nat, nextRetry: Time, circuitUntil: Time)

  type Episodes = map<Pair, Episode>

  /** A recovery action chosen by a tick; no pair means the half-open probe of the child. */
  datatype Pending = Pending(pair: Option<Pair>, action: Action)

  /** What one supervisor process holds in memory and decides by. */
  datatype Memory = Memory(
    episodes: Episodes, child: Child, childRestarts: nat, bootstrapAttempted: bool, inheritedUntil: Time)

  /** What it keeps in its state file. */
  datatype Persistent = Persistent(episodes: Episodes, childRestarts: nat, child: Child)

  /** What it reports. Nothing here feeds back into a decision. */
  datatype Status = Status(
    live: bool, ready: bool, sessions: seq<Episode>, controlFailures: nat, lastControlError: string,
    childRestarts: nat, childAttempts: nat, childNextRetry: Time, childCircuitOpen: bool)

  // ----- configuration

  /** An empty child ladder falls back to the session ladder. */
  function Normalized(cfg: Config): Config {
    if cfg.childBackoffs == [] then cfg.(childBackoffs := cfg.backoffs) else cfg
  }

  /** What NewSupervisor accepts. */
  predicate ValidConfig(cfg: Config) {
    && cfg.gracePeriod > 0 && cfg.stablePeriod > 0 && cfg.circuitOpen > 0
    && cfg.backoffs != [] && cfg.childBackoffs != [] && cfg.expected != []
  }

  predicate Covers(cfg: Config, episodes: Episodes) {
    forall p :: p in cfg.expected ==> p in episodes
  }

  // ----- the child's restart budget

  predicate ChildCircuitOpen(child: Child, now: Time) {
    child.circuitUntil != 0 && now < child.circuitUntil
  }

  predicate ChildHalfOpenDue(cfg: Config, child: Child, now: Time) {
    child.attempts > |cfg.childBackoffs| && child.nextRetry != 0 && child.nextRetry <= now
  }

  predicate ChildWaiting(child: Child, now: Time) {
    child.nextRetry != 0 && now < child.nextRetry
  }

  function Min(a: int, b: int): int { if a < b then a else b }

  /** The wait that follows the k-th restart of the child. */
  function ChildDelay(cfg: Config, k: nat): nat
    requires cfg.childBackoffs != [] && k > 0
  {
    if k > |cfg.childBackoffs| then cfg.circuitOpen
    else cfg.childBackoffs[Min(k - 1, |cfg.childBackoffs| - 1)]
  }

  /** The budget after a restart is reserved, when it is not waiting. */
  function Reserve(cfg: Config, child: Child, now: Time): Child
    requires cfg.childBackoffs != []
  {
    var k := child.attempts + 1;
    var until := now + ChildDelay(cfg, k);
    Child(k, until, if k > |cfg.childBackoffs| then until else 0)
  }

  predicate CircuitFailsLiveness(m: Memory, now: Time) {
    && ChildCircuitOpen(m.child, now)
    && (m.inheritedUntil == 0 || m.child.circuitUntil != m.inheritedUntil)
  }

  // ----- one episode

  function FreshEpisode(p: Pair): Episode {
    Episode(p, NoState, RecoveryGrace, 0, RecoveryNone, NoResult, 0, 0, 0, 0)
  }

  function MarkUp(cfg: Config, now: Time, p: Pair, e: Episode): Episode {
    var up := e.(phase := RecoveryUp);
    if e.stableSince == 0 then up.(stableSince := now)
    else if now < e.stableSince + cfg.stablePeriod then up
    else Episode(p, SessionUp, RecoveryUp, 0, RecoveryNone, NoResult, 0, 0, e.stableSince, 0)
  }

  function MarkWaiting(now: Time, e: Episode): Episode {
    e.(phase := if e.circuitUntil != 0 && now < e.circuitUntil then RecoveryCircuitOpen else RecoveryBackoff)
  }

  function SelectAction(cfg: Config, attempts: nat, present: bool, allUnhealthy: bool): Action {
    if attempts >= |cfg.backoffs| || attempts == 0 then RecoveryReplay
    else if attempts == 1 && present then RecoveryReset
    else if attempts == 1 && allUnhealthy then RecoveryRestartChild
    else if attempts == 1 then RecoveryReplay
    else if attempts == 2 && allUnhealthy then RecoveryRestartChild
    else if attempts == 2 && present then RecoveryReset
    else if attempts == 2 then RecoveryReplay
    else RecoveryNone
  }

  /** The wait that follows the k-th attempt on a session. */
  function Delay(cfg: Config, k: nat): nat
    requires cfg.backoffs != [] && k > 0
  {
    if k > |cfg.backoffs| then cfg.circuitOpen else cfg.backoffs[Min(k - 1, |cfg.backoffs| - 1)]
  }

  function Schedule(cfg: Config, now: Time, e: Episode, action: Action): Episode
    requires cfg.backoffs != []
  {
    var k := e.attempts + 1;
    var until := now + Delay(cfg, k);
    var s := e.(lastAction := action, lastResult := InProgress, attempts := k, nextRetry := until);
    if k > |cfg.backoffs| then s.(circuitUntil := until, phase := RecoveryCircuitOpen)
    else s.(phase := RecoveryBackoff)
  }

  /** What planning one episode yields; no action means the tick goes on to the next pair. */
  datatype Planned = Planned(episode: Episode, child: Child, action: Action)

  /** An unhealthy episode whose grace and retry time are over. */
  predicate Due(cfg: Config, now: Time, e: Episode) {
    && e.failingSince != 0 && e.failingSince + cfg.gracePeriod <= now
    && (e.nextRetry == 0 || e.nextRetry <= now)
  }

  function PlanEpisode(cfg: Config, now: Time, p: Pair, e: Episode, child: Child,
                       seen: Option<SessionState>, allUnhealthy: bool): Planned
    requires cfg.backoffs != [] && cfg.childBackoffs != []
  {
    var e := e.(state := if seen.Some? then seen.value else NoState);
    if seen == Some(SessionUp) then Planned(MarkUp(cfg, now, p, e), child, RecoveryNone) else
    var e := e.(stableSince := 0);
    if e.failingSince == 0 then Planned(e.(failingSince := now, phase := RecoveryGrace), child, RecoveryNone)
    else if now < e.failingSince + cfg.gracePeriod then Planned(e.(phase := RecoveryGrace), child, RecoveryNone)
    else if e.nextRetry != 0 && now < e.nextRetry then Planned(MarkWaiting(now, e), child, RecoveryNone)
    else
      var action := SelectAction(cfg, e.attempts, seen.Some?, allUnhealthy);
      if action == RecoveryNone then Planned(e, child, RecoveryNone)
      else if action == RecoveryRestartChild && ChildWaiting(child, now) then
        Planned(MarkWaiting(now, e.(nextRetry := child.nextRetry)), child, RecoveryNone)
      else
        Planned(Schedule(cfg, now, e, action),
                if action == RecoveryRestartChild then Reserve(cfg, child, now) else child, action)
  }

  // ----- one tick

  /** The last state reported for each pair. */
  function Observed(sessions: seq<Session>): map<Pair, SessionState> {
    if sessions == [] then map[]
    else
      var last := sessions[|sessions| - 1];
      Observed(sessions[..|sessions| - 1])[last.pair := last.state]
  }

  function Seen(observed: map<Pair, SessionState>, p: Pair): Option<SessionState> {
    if p in observed then Some(observed[p]) else None
  }

  predicate SeenUp(observed: map<Pair, SessionState>, p: Pair) {
    p in observed && observed[p] == SessionUp
  }

  predicate AllUnhealthy(cfg: Config, observed: map<Pair, SessionState>) {
    forall p :: p in cfg.expected ==> !SeenUp(observed, p)
  }

  datatype Sweep = Sweep(episodes: Episodes, child: Child, ready: bool, pending: Option<Pending>)

  /** The loop over the expected pairs from index i on; it stops at the first chosen action. */
  function SweepFrom(cfg: Config, now: Time, episodes: Episodes, child: Child, ready: bool,
                     observed: map<Pair, SessionState>, allUnhealthy: bool, i: nat): (s: Sweep)
    requires ValidConfig(cfg) && Covers(cfg, episodes) && i <= |cfg.expected|
    ensures s.episodes.Keys == episodes.Keys
    decreases |cfg.expected| - i
  {
    if i == |cfg.expected| then Sweep(episodes, child, ready, None)
    else
      var p := cfg.expected[i];
      var r := PlanEpisode(cfg, now, p, episodes[p], child, Seen(observed, p), allUnhealthy);
      var ready' := ready && SeenUp(observed, p);
      if r.action != RecoveryNone then
        Sweep(episodes[p := r.episode], r.child, ready', Some(Pending(Some(p), r.action)))
      else
        SweepFrom(cfg, now, episodes[p := r.episode], r.child, ready', observed, allUnhealthy, i + 1)
  }

  predicate StableUp(cfg: Config, now: Time, e: Episode) {
    e.state == SessionUp && e.stableSince != 0 && e.stableSince + cfg.stablePeriod <= now
  }

  predicate AllStable(cfg: Config, now: Time, episodes: Episodes)
    requires Covers(cfg, episodes)
  {
    forall p :: p in cfg.expected ==> StableUp(cfg, now, episodes[p])
  }

  /** The planning part of a tick: the half-open probe, or else the sweep over the episodes. */
  function Plan(cfg: Config, now: Time, m: Memory, observed: map<Pair, SessionState>): Sweep
    requires ValidConfig(cfg) && Covers(cfg, m.episodes)
  {
    var sick := AllUnhealthy(cfg, observed);
    if sick && ChildHalfOpenDue(cfg, m.child, now) then
      Sweep(m.episodes, Reserve(cfg, m.child, now), false, Some(Pending(None, RecoveryRestartChild)))
    else
      SweepFrom(cfg, now, m.episodes, m.child, true, observed, sick, 0)
  }

  predicate ClearsBudget(cfg: Config, now: Time, m: Memory, observed: map<Pair, SessionState>)
    requires ValidConfig(cfg) && Covers(cfg, m.episodes)
  {
    !AllUnhealthy(cfg, observed) && AllStable(cfg, now, Plan(cfg, now, m, observed).episodes)
  }

  /** A tick whose status query succeeded, up to its first save: the plan, with the budget cleared or not. */
  function TickMemory(cfg: Config, now: Time, m: Memory, sessions: seq<Session>): (r: Memory)
    requires ValidConfig(cfg) && Covers(cfg, m.episodes)
    ensures r.episodes.Keys == m.episodes.Keys
  {
    var observed := Observed(sessions);
    var s := Plan(cfg, now, m, observed);
    if ClearsBudget(cfg, now, m, observed)
    then Memory(s.episodes, Child(0, 0, 0), m.childRestarts, m.bootstrapAttempted, 0)
    else Memory(s.episodes, s.child, m.childRestarts, m.bootstrapAttempted, m.inheritedUntil)
  }

  function TickPending(cfg: Config, now: Time, m: Memory, sessions: seq<Session>): Option<Pending>
    requires ValidConfig(cfg) && Covers(cfg, m.episodes)
  {
    Plan(cfg, now, m, Observed(sessions)).pending
  }

  /** The bookkeeping after an executed action. */
  function RecordMemory(m: Memory, pending: Pending, result: Result): (r: Memory)
    requires pending.pair.Some? ==> pending.pair.value in m.episodes
    ensures r.episodes.Keys == m.episodes.Keys
  {
    var restarts := m.childRestarts + if result == Success && pending.action == RecoveryRestartChild then 1 else 0;
    var episodes := if pending.pair.None? then m.episodes else
      m.episodes[pending.pair.value := m.episodes[pending.pair.value].(lastResult := result)];
    Memory(episodes, m.child, restarts, m.bootstrapAttempted, m.inheritedUntil)
  }

  /** The bookkeeping after the bootstrap restart; `halfOpen` was decided before it. */
  function BootstrapMemory(cfg: Config, now: Time, m: Memory, halfOpen: bool, started: bool): Memory
    requires ValidConfig(cfg)
  {
    if !started && !ChildCircuitOpen(m.child, now) && !ChildWaiting(m.child, now) then
      m.(child := Reserve(cfg, m.child, now))
    else if started && halfOpen then
      var child := if ChildWaiting(m.child, now) then m.child else Reserve(cfg, m.child, now);
      m.(child := child, inheritedUntil := child.circuitUntil)
    else m
  }

  // ----- the state file

  function ToDisk(m: Memory): Persistent {
    Persistent(m.episodes, m.childRestarts, m.child)
  }

  function LoadedEpisode(disk: Option<Persistent>, p: Pair): Episode {
    if disk.Some? && p in disk.value.episodes && disk.value.episodes[p].pair == p
    then disk.value.episodes[p] else FreshEpisode(p)
  }

  function LoadedEpisodes(cfg: Config, disk: Option<Persistent>): Episodes {
    map p | p in cfg.expected :: LoadedEpisode(disk, p)
  }

  /** The memory of a new process. */
  function Load(cfg: Config, now: Time, disk: Option<Persistent>): Memory {
    var disk := if cfg.persist then disk else None;
    var child := if disk.Some? then disk.value.child else Child(0, 0, 0);
    Memory(LoadedEpisodes(cfg, disk), child,
           if disk.Some? then disk.value.childRestarts else 0, false,
           if ChildCircuitOpen(child, now) then child.circuitUntil else 0)
  }

  // ----- what is reported

  /** The episodes of the pairs, in order. */
  function Listed(pairs: seq<Pair>, episodes: Episodes): (r: seq<Episode>)
    requires forall p :: p in pairs ==> p in episodes
    ensures |r| == |pairs| && forall i :: 0 <= i < |pairs| ==> r[i] == episodes[pairs[i]]
  {
    if pairs == [] then [] else Listed(pairs[..|pairs| - 1], episodes) + [episodes[pairs[|pairs| - 1]]]
  }

  function Report(cfg: Config, m: Memory, clock: Time, live: bool, ready: bool, failures: nat, error: string): Status
    requires Covers(cfg, m.episodes)
  {
    Status(live, ready, Listed(cfg.expected, m.episodes), failures, error,
           m.childRestarts, m.child.attempts, m.child.nextRetry, ChildCircuitOpen(m.child, clock))
  }

  /** The report of a new process. */
  function InitialStatus(cfg: Config, m: Memory, now: Time): Status
    requires Covers(cfg, m.episodes)
  {
    Report(cfg, m, now, false, false, 0, "")
  }

  /** The report of a tick whose status query succeeded. */
  function TickStatus(cfg: Config, now: Time, m: Memory, sessions: seq<Session>, running: bool): Status
    requires ValidConfig(cfg) && Covers(cfg, m.episodes)
  {
    var m' := TickMemory(cfg, now, m, sessions);
    Report(cfg, m', now, running && !CircuitFailsLiveness(m', now), Plan(cfg, now, m, Observed(sessions)).ready, 0, "")
  }

  /** The report of a tick whose status query failed; nothing else changes. */
  function FailureStatus(cfg: Config, now: Time, m: Memory, before: Status, error: string, running: bool): Status
    requires Covers(cfg, m.episodes)
  {
    Report(cfg, m, now, !CircuitFailsLiveness(m, now) && (running || ChildWaiting(m.child, now)), false,
           before.controlFailures + 1, error)
  }

  /** The report after an executed action was recorded in m. */
  function RecordStatus(cfg: Config, now: Time, m: Memory, before: Status, pending: Pending, result: Result,
                        running: bool): Status
    requires Covers(cfg, m.episodes)
  {
    var up := running || (pending.action == RecoveryRestartChild && result != Success);
    Report(cfg, m, now, up && !CircuitFailsLiveness(m, now), before.ready, before.controlFailures,
           before.lastControlError)
  }

  /** The report after the bootstrap was recorded in m. */
  function BootstrapStatus(cfg: Config, now: Time, m: Memory, before: Status, started: bool, running: bool): Status
    requires Covers(cfg, m.episodes)
  {
    Report(cfg, m, now, (running || !started) && !CircuitFailsLiveness(m, now), false,
           before.controlFailures, before.lastControlError)
  }
}
