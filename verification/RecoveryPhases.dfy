/** What every reachable state of the supervisor keeps, in memory and in its state file. */
module RecoveryPhases {
  import opened Common
  import opened Recovery
  import opened RecoveryRuns

  /** The counters, times and reported phase of an episode agree. */
  predicate PhaseOk(cfg: Config, clock: Time, e: Episode) {
    && (e.attempts == 0 <==> e.nextRetry == 0)
    && (e.attempts > 0 ==> e.failingSince != 0 && e.failingSince + cfg.gracePeriod <= clock)
    && e.failingSince <= clock && e.stableSince <= clock
    && (e.attempts > |cfg.backoffs| <==> e.circuitUntil != 0)
    && (e.circuitUntil != 0 ==> e.nextRetry == e.circuitUntil)
    && (e.phase == RecoveryGrace ==> e.attempts == 0)
    && (e.phase == RecoveryBackoff ==> 1 <= e.attempts <= |cfg.backoffs|)
    && (e.phase == RecoveryCircuitOpen ==> e.attempts > |cfg.backoffs|)
    // Up is reported of a session that is Up, and of no other unless it is on a rung without an action
    && (e.state == SessionUp ==> e.phase == RecoveryUp)
    && (e.phase == RecoveryUp ==> e.state == SessionUp || 3 <= e.attempts < |cfg.backoffs|)
  }

  predicate ChildOk(cfg: Config, c: Child) {
    && (c.attempts == 0 <==> c.nextRetry == 0)
    && (c.attempts > |cfg.childBackoffs| <==> c.circuitUntil != 0)
    && (c.circuitUntil != 0 ==> c.nextRetry == c.circuitUntil)
  }

  predicate AllPhasesOk(cfg: Config, clock: Time, episodes: Episodes)
    requires Covers(cfg, episodes)
  {
    forall p :: p in cfg.expected ==> PhaseOk(cfg, clock, episodes[p])
  }

  /** An action that was planned and saved but not yet recorded as finished. */
  predicate PlannedOk(cfg: Config, m: Memory, pending: Pending, at: Time)
    requires ValidConfig(cfg)
  {
    && 0 < at
    && pending.action != RecoveryNone
    && (pending.pair.None? ==> pending.action == RecoveryRestartChild)
    && (pending.pair.Some? ==>
        && pending.pair.value in m.episodes
        && var e := m.episodes[pending.pair.value];
        && e.attempts > 0 && e.nextRetry == at + Delay(cfg, e.attempts) && e.stableSince == 0
        && e.lastAction == pending.action && e.lastResult == InProgress)
    && (pending.action == RecoveryRestartChild ==>
        m.child.attempts > 0 && m.child.nextRetry == at + ChildDelay(cfg, m.child.attempts))
  }

  predicate MemoryOk(cfg: Config, clock: Time, m: Memory)
    requires ValidConfig(cfg)
  {
    EpisodesFit(cfg, m.episodes) && AllPhasesOk(cfg, clock, m.episodes) && ChildOk(cfg, m.child)
  }

  predicate ProcessOk(cfg: Config, clock: Time, disk: Option<Persistent>, x: Process)
    requires ValidConfig(cfg)
  {
    var m := x.mem;
    && MemoryOk(cfg, clock, m)
    && (!x.pc.Idle? ==> 0 < x.pc.at <= clock && (cfg.persist ==> disk == Some(ToDisk(m))))
    && (x.pc.Acting? || x.pc.Acted? ==> PlannedOk(cfg, m, x.pc.pending, x.pc.at))
    && (x.pc.Starting? || x.pc.Started? ==>
        x.pc.at == clock && x.pc.halfOpen == ChildHalfOpenDue(cfg, m.child, x.pc.at))
  }

  predicate SystemOk(cfg: Config, s: System)
    requires ValidConfig(cfg)
  {
    && (s.disk.Some? ==>
        EpisodesFit(cfg, s.disk.value.episodes) && AllPhasesOk(cfg, s.clock, s.disk.value.episodes)
        && ChildOk(cfg, s.disk.value.child))
    && (s.process.Some? ==> ProcessOk(cfg, s.clock, s.disk, s.process.value))
  }

  lemma PlanPhaseOk(cfg: Config, now: Time, p: Pair, e: Episode, child: Child,
                    seen: Option<SessionState>, sick: bool)
    requires ValidConfig(cfg) && now > 0 && PhaseOk(cfg, now, e)
    ensures PhaseOk(cfg, now, PlanEpisode(cfg, now, p, e, child, seen, sick).episode)
  {
  }

  /** A tick that chose an action leaves that pair's episode not Up, so the budget is kept. */
  lemma {:induction false} SweepPendingDown(cfg: Config, now: Time, episodes: Episodes, child: Child, ready: bool,
                                            observed: map<Pair, SessionState>, sick: bool, i: nat)
    requires ValidConfig(cfg) && Covers(cfg, episodes) && i <= |cfg.expected|
    ensures var s := SweepFrom(cfg, now, episodes, child, ready, observed, sick, i);
      s.pending.Some? ==>
        && s.pending.value.pair.Some? && s.pending.value.pair.value in cfg.expected
        && s.episodes[s.pending.value.pair.value].state != SessionUp
    decreases |cfg.expected| - i
  {
    if i < |cfg.expected| {
      var p := cfg.expected[i];
      var r := PlanEpisode(cfg, now, p, episodes[p], child, Seen(observed, p), sick);
      if r.action == RecoveryNone {
        SweepPendingDown(cfg, now, episodes[p := r.episode], r.child, ready && SeenUp(observed, p), observed, sick,
                         i + 1);
      }
    }
  }

  lemma PendingNotCleared(cfg: Config, now: Time, m: Memory, observed: map<Pair, SessionState>)
    requires ValidConfig(cfg) && Covers(cfg, m.episodes)
    requires Plan(cfg, now, m, observed).pending.Some?
    ensures !ClearsBudget(cfg, now, m, observed)
  {
    SweepPendingDown(cfg, now, m.episodes, m.child, true, observed, AllUnhealthy(cfg, observed), 0);
  }

  /** What planning keeps, a whole tick keeps; and the action it chose is planned from such an episode. */
  lemma PlanKeepsEach(cfg: Config, now: Time, m: Memory, observed: map<Pair, SessionState>,
                      P: (Pair, Episode) -> bool) returns (c: Chosen)
    requires ValidConfig(cfg) && Covers(cfg, m.episodes)
    requires Each(cfg, m.episodes, P) && PlanKeeps(cfg, now, P)
    ensures var s := Plan(cfg, now, m, observed);
      && s.episodes.Keys == m.episodes.Keys
      && Each(cfg, s.episodes, P)
      && (s.pending.None? ==> s.child == m.child)
      && (s.pending.Some? && s.pending.value.pair.None? ==>
        && s.pending.value.action == RecoveryRestartChild && s.episodes == m.episodes
        && ChildHalfOpenDue(cfg, m.child, now) && s.child == Reserve(cfg, m.child, now))
      && (s.pending.Some? && s.pending.value.pair.Some? ==>
        && s.pending.value.pair.value in cfg.expected && s.pending.value.action != RecoveryNone
        && var p := s.pending.value.pair.value;
           var sick := AllUnhealthy(cfg, observed);
           && P(p, c.before) && c.seen == Seen(observed, p)
           && PlanEpisode(cfg, now, p, c.before, m.child, c.seen, sick)
              == Planned(s.episodes[p], s.child, s.pending.value.action))
  {
    c := SweepKeeps(cfg, now, m.episodes, m.child, true, observed, AllUnhealthy(cfg, observed), 0, P);
  }

  /** The first effects of an episode for which an action is chosen. */
  lemma ChosenIsDue(cfg: Config, now: Time, p: Pair, e: Episode, child: Child,
                    seen: Option<SessionState>, sick: bool)
    requires ValidConfig(cfg)
    requires PlanEpisode(cfg, now, p, e, child, seen, sick).action != RecoveryNone
    ensures var r := PlanEpisode(cfg, now, p, e, child, seen, sick);
      && Due(cfg, now, e) && seen != Some(SessionUp)
      && r.action == SelectAction(cfg, e.attempts, seen.Some?, sick)
      && r.episode.attempts == e.attempts + 1 && r.episode.nextRetry == now + Delay(cfg, e.attempts + 1)
      && r.episode.stableSince == 0 && r.episode.failingSince == e.failingSince
      && r.episode.lastAction == r.action && r.episode.lastResult == InProgress
      && (if r.action == RecoveryRestartChild
          then !ChildWaiting(child, now) && r.child == Reserve(cfg, child, now) else r.child == child)
  {
  }

  lemma ReserveOk(cfg: Config, child: Child, now: Time)
    requires ValidConfig(cfg) && now > 0
    ensures var c := Reserve(cfg, child, now);
      && ChildOk(cfg, c)
      && c.attempts == child.attempts + 1 && c.nextRetry == now + ChildDelay(cfg, c.attempts)
  {
  }

  ghost predicate PhaseAt(cfg: Config, now: Time, p: Pair, e: Episode) {
    e.pair == p && PhaseOk(cfg, now, e)
  }

  lemma PlanKeepsPhases(cfg: Config, now: Time)
    requires ValidConfig(cfg) && now > 0
    ensures PlanKeeps(cfg, now, (p, e) => PhaseAt(cfg, now, p, e))
  {
    forall p, x, child, seen, b | PhaseAt(cfg, now, p, x)
      ensures PhaseAt(cfg, now, p, PlanEpisode(cfg, now, p, x, child, seen, b).episode)
    {
      PlanPhaseOk(cfg, now, p, x, child, seen, b);
    }
  }

  /** The plan of a tick keeps every episode consistent. */
  lemma PlanKeepsEpisodesOk(cfg: Config, now: Time, m: Memory, observed: map<Pair, SessionState>)
    requires ValidConfig(cfg) && now > 0 && EpisodesFit(cfg, m.episodes) && AllPhasesOk(cfg, now, m.episodes)
    ensures EpisodesFit(cfg, Plan(cfg, now, m, observed).episodes)
    ensures AllPhasesOk(cfg, now, Plan(cfg, now, m, observed).episodes)
  {
    PlanKeepsPhases(cfg, now);
    var P := (p: Pair, e: Episode) => PhaseAt(cfg, now, p, e);
    var _ := PlanKeepsEach(cfg, now, m, observed, P);
    assert forall p :: p in cfg.expected ==> P(p, Plan(cfg, now, m, observed).episodes[p]);
  }

  /** The plan of a tick: every episode and the child's budget stay consistent, and the chosen action is recorded. */
  lemma PlanOk(cfg: Config, now: Time, m: Memory, observed: map<Pair, SessionState>)
    requires ValidConfig(cfg) && now > 0 && EpisodesFit(cfg, m.episodes)
    requires AllPhasesOk(cfg, now, m.episodes) && ChildOk(cfg, m.child)
    ensures var s := Plan(cfg, now, m, observed);
      && EpisodesFit(cfg, s.episodes) && AllPhasesOk(cfg, now, s.episodes) && ChildOk(cfg, s.child)
      && (s.pending.Some? ==>
          PlannedOk(cfg, m.(episodes := s.episodes, child := s.child), s.pending.value, now))
  {
    PlanKeepsEpisodesOk(cfg, now, m, observed);
    var P := (p: Pair, e: Episode) => true;
    var c := PlanKeepsEach(cfg, now, m, observed, P);
    var s := Plan(cfg, now, m, observed);
    ReserveOk(cfg, m.child, now);
    if s.pending.Some? && s.pending.value.pair.Some? {
      ChosenIsDue(cfg, now, s.pending.value.pair.value, c.before, m.child, c.seen, AllUnhealthy(cfg, observed));
    }
  }

  lemma LaterOk(cfg: Config, clock: Time, now: Time, episodes: Episodes)
    requires Covers(cfg, episodes) && clock <= now && AllPhasesOk(cfg, clock, episodes)
    ensures AllPhasesOk(cfg, now, episodes)
  {
    forall p | p in cfg.expected
      ensures PhaseOk(cfg, now, episodes[p])
    {
      assert PhaseOk(cfg, clock, episodes[p]);
    }
  }

  lemma TickMemoryOk(cfg: Config, now: Time, m: Memory, sessions: seq<Session>)
    requires ValidConfig(cfg) && now > 0 && MemoryOk(cfg, now, m)
    ensures var m' := TickMemory(cfg, now, m, sessions);
      var pending := TickPending(cfg, now, m, sessions);
      MemoryOk(cfg, now, m') && (pending.Some? ==> PlannedOk(cfg, m', pending.value, now))
  {
    var observed := Observed(sessions);
    PlanOk(cfg, now, m, observed);
    if Plan(cfg, now, m, observed).pending.Some? {
      PendingNotCleared(cfg, now, m, observed);
    }
  }

  /** Recording a result changes nothing but that result and the restart counter. */
  lemma RecordKeeps(m: Memory, pending: Pending, result: Result)
    requires pending.pair.Some? ==> pending.pair.value in m.episodes
    ensures var r := RecordMemory(m, pending, result);
      && r.child == m.child && r.inheritedUntil == m.inheritedUntil
      && (forall p :: p in m.episodes ==>
          r.episodes[p] == m.episodes[p].(lastResult := r.episodes[p].lastResult))
  {
  }

  lemma RecordMemoryOk(cfg: Config, now: Time, m: Memory, pending: Pending, result: Result)
    requires ValidConfig(cfg) && MemoryOk(cfg, now, m)
    requires pending.pair.Some? ==> pending.pair.value in m.episodes
    ensures MemoryOk(cfg, now, RecordMemory(m, pending, result))
  {
    RecordKeeps(m, pending, result);
    var r := RecordMemory(m, pending, result);
    forall p | p in cfg.expected
      ensures r.episodes[p].pair == p && PhaseOk(cfg, now, r.episodes[p])
    {
      assert PhaseOk(cfg, now, m.episodes[p]);
    }
  }

  lemma LoadOk(cfg: Config, clock: Time, now: Time, disk: Option<Persistent>)
    requires ValidConfig(cfg) && clock <= now
    requires disk.Some? ==> EpisodesFit(cfg, disk.value.episodes) && AllPhasesOk(cfg, clock, disk.value.episodes)
                            && ChildOk(cfg, disk.value.child)
    ensures MemoryOk(cfg, now, Load(cfg, now, disk))
  {
    if disk.Some? {
      LaterOk(cfg, clock, now, disk.value.episodes);
    }
  }

  lemma StepOk(cfg: Config, s: System, e: Event)
    requires Fits(cfg, s) && SystemOk(cfg, s)
    ensures SystemOk(cfg, Step(cfg, s, e))
  {
    if Enabled(s, e) {
      var now := EventTime(s, e);
      if s.disk.Some? {
        LaterOk(cfg, s.clock, now, s.disk.value.episodes);
      }
      if s.process.Some? {
        LaterOk(cfg, s.clock, now, s.process.value.mem.episodes);
        StepProcessOk(cfg, s, e, now);
      } else {
        LoadOk(cfg, s.clock, now, s.disk);
      }
    }
  }

  lemma StepProcessOk(cfg: Config, s: System, e: Event, now: Time)
    requires Fits(cfg, s) && Enabled(s, e) && s.process.Some? && now == EventTime(s, e)
    requires ProcessOk(cfg, s.clock, s.disk, s.process.value) && MemoryOk(cfg, now, s.process.value.mem)
    ensures var s' := Step(cfg, s, e);
      && (s'.process.Some? ==> ProcessOk(cfg, now, s'.disk, s'.process.value))
      && s'.clock == now
      && (s'.disk == s.disk || (exists m :: MemoryOk(cfg, now, m) && s'.disk == Some(ToDisk(m))))
  {
    var x := s.process.value;
    match e
    case Tick(_, sessions, _) =>
      TickMemoryOk(cfg, now, x.mem, sessions);
    case StatusFailed(_) =>
    case Execute =>
    case Record(_, result, _) =>
      RecordMemoryOk(cfg, now, x.mem, x.pc.pending, result);
    case Bootstrap(_, _) =>
      assert MemoryOk(cfg, now, x.mem.(bootstrapAttempted := true));
    case RunBootstrap =>
    case FinishBootstrap(started, _) =>
      ReserveOk(cfg, x.mem.child, x.pc.at);
      assert MemoryOk(cfg, now, BootstrapMemory(cfg, x.pc.at, x.mem, x.pc.halfOpen, started));
    case Crash =>
  }

  lemma {:induction false} RunOk(cfg: Config, events: seq<Event>)
    requires ValidConfig(cfg)
    ensures SystemOk(cfg, Run(cfg, events))
  {
    if events != [] {
      RunOk(cfg, events[..|events| - 1]);
      StepOk(cfg, Run(cfg, events[..|events| - 1]), events[|events| - 1]);
    }
  }

  /** A reload restores exactly what was saved: every episode, the restart count and the child's budget. A circuit
      counts as inherited exactly if it is still open then, and the bootstrap may be tried again. */
  lemma ReloadRestores(cfg: Config, events: seq<Event>, now: Time)
    requires ValidConfig(cfg) && cfg.persist && Run(cfg, events).process.Some?
    ensures var m := Run(cfg, events).process.value.mem;
      var r := Load(cfg, now, Some(ToDisk(m)));
      && r.episodes == m.episodes && r.child == m.child && r.childRestarts == m.childRestarts
      && !r.bootstrapAttempted
      && r.inheritedUntil == if m.child.circuitUntil != 0 && now < m.child.circuitUntil then m.child.circuitUntil else 0
  {
    RunOk(cfg, events);
  }

  /** In every reachable state, in memory and on disk: an episode in Grace has made no attempt, one in Backoff is on its
      ladder, one with an open circuit is past it; the circuit's deadline is set exactly past the ladder and is then the
      retry time; and the child's counters obey the same law. */
  lemma PhasesAgree(cfg: Config, events: seq<Event>, p: Pair)
    requires ValidConfig(cfg) && p in cfg.expected
    ensures var s := Run(cfg, events);
      && (s.process.Some? ==>
            && p in s.process.value.mem.episodes
            && PhaseOk(cfg, s.clock, s.process.value.mem.episodes[p]) && ChildOk(cfg, s.process.value.mem.child))
      && (s.disk.Some? ==>
            && p in s.disk.value.episodes
            && PhaseOk(cfg, s.clock, s.disk.value.episodes[p]) && ChildOk(cfg, s.disk.value.child))
  {
    RunOk(cfg, events);
  }
}
