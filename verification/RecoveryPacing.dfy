/** Pacing of recovery actions across failing saves, crashes and reloads. */
module RecoveryPacing {
  import opened Common
  import opened Recovery
  import opened RecoveryRuns
  import opened RecoveryPhases

  // ----- properties of one episode that every step keeps

  type EpisodeProperty = (Time, Pair, Episode) -> bool

  /** The clock moving on, planning, and recording a result all keep Q. */
  ghost predicate Kept(cfg: Config, Q: EpisodeProperty)
    requires ValidConfig(cfg)
  {
    && (forall t, t', p, e :: t <= t' && Q(t, p, e) ==> Q(t', p, e))
    && (forall t, p, e, child, seen, sick :: t > 0 && Q(t, p, e) ==>
        Q(t, p, PlanEpisode(cfg, t, p, e, child, seen, sick).episode))
    && (forall t, p, e, r :: Q(t, p, e) ==> Q(t, p, e.(lastResult := r)))
  }

  ghost predicate HoldsOf(cfg: Config, clock: Time, episodes: Episodes, Q: EpisodeProperty) {
    forall p :: p in cfg.expected ==> p in episodes && Q(clock, p, episodes[p])
  }

  ghost predicate HoldsInMemory(cfg: Config, s: System, Q: EpisodeProperty) {
    s.process.Some? ==> HoldsOf(cfg, s.clock, s.process.value.mem.episodes, Q)
  }

  ghost predicate HoldsOnDisk(cfg: Config, s: System, Q: EpisodeProperty) {
    s.disk.Some? && HoldsOf(cfg, s.clock, s.disk.value.episodes, Q)
  }

  lemma TickKeeps(cfg: Config, now: Time, m: Memory, sessions: seq<Session>,
                  Q: EpisodeProperty) returns (c: Chosen)
    requires ValidConfig(cfg) && now > 0 && EpisodesFit(cfg, m.episodes) && Kept(cfg, Q)
    requires HoldsOf(cfg, now, m.episodes, Q)
    ensures HoldsOf(cfg, now, TickMemory(cfg, now, m, sessions).episodes, Q)
    ensures var pending := TickPending(cfg, now, m, sessions);
      pending.Some? && pending.value.pair.Some? ==>
        Q(now, pending.value.pair.value, c.before) && Due(cfg, now, c.before)
        && SelectAction(cfg, c.before.attempts, Seen(Observed(sessions), pending.value.pair.value).Some?,
                        AllUnhealthy(cfg, Observed(sessions))) == pending.value.action
  {
    var P := (p: Pair, e: Episode) => Q(now, p, e);
    assert PlanKeeps(cfg, now, P);
    assert Each(cfg, m.episodes, P);
    var observed := Observed(sessions);
    c := PlanKeepsEach(cfg, now, m, observed, P);
    var plan := Plan(cfg, now, m, observed);
    assert forall p :: p in cfg.expected ==> P(p, plan.episodes[p]);
    if plan.pending.Some? && plan.pending.value.pair.Some? {
      ChosenIsDue(cfg, now, plan.pending.value.pair.value, c.before, m.child, c.seen, AllUnhealthy(cfg, observed));
    }
  }

  lemma RecordHolds(cfg: Config, now: Time, m: Memory, pending: Pending, result: Result, Q: EpisodeProperty)
    requires ValidConfig(cfg) && EpisodesFit(cfg, m.episodes) && Kept(cfg, Q)
    requires pending.pair.Some? ==> pending.pair.value in m.episodes
    requires HoldsOf(cfg, now, m.episodes, Q)
    ensures HoldsOf(cfg, now, RecordMemory(m, pending, result).episodes, Q)
  {
    RecordKeeps(m, pending, result);
    var r := RecordMemory(m, pending, result);
    forall p | p in cfg.expected
      ensures Q(now, p, r.episodes[p])
    {
      assert Q(now, p, m.episodes[p].(lastResult := r.episodes[p].lastResult));
    }
  }

  lemma HoldsLater(cfg: Config, clock: Time, now: Time, episodes: Episodes, Q: EpisodeProperty)
    requires ValidConfig(cfg) && clock <= now && Kept(cfg, Q) && HoldsOf(cfg, clock, episodes, Q)
    ensures HoldsOf(cfg, now, episodes, Q)
  {
  }

  /** Where the episodes of the next state come from: memory is changed by this step or loaded from the disk,
      and the disk is left alone or written from memory. */
  lemma StepEpisodes(cfg: Config, s: System, e: Event)
    requires Fits(cfg, s) && Enabled(s, e) && !e.Tick? && !e.Record?
    ensures var s' := Step(cfg, s, e);
      && s'.clock == EventTime(s, e)
      && (s'.process.Some? && s.process.Some? ==> s'.process.value.mem.episodes == s.process.value.mem.episodes)
      && (s'.process.Some? && s.process.None? ==>
          && e.Boot?
          && forall p :: p in cfg.expected ==>
               s'.process.value.mem.episodes[p] == LoadedEpisode(if cfg.persist then s.disk else None, p))
      && (s'.disk != s.disk ==>
            s'.disk.Some? && s.process.Some? && s'.disk.value.episodes == s.process.value.mem.episodes)
  {
  }

  /** One step keeps Q in memory, and on disk; a reload takes it from the disk to memory. */
  lemma StepKeeps(cfg: Config, s: System, e: Event, Q: EpisodeProperty)
    requires Fits(cfg, s) && SystemOk(cfg, s) && Kept(cfg, Q)
    requires HoldsInMemory(cfg, s, Q)
    ensures (e.Boot? ==> cfg.persist && HoldsOnDisk(cfg, s, Q)) ==> HoldsInMemory(cfg, Step(cfg, s, e), Q)
    ensures HoldsOnDisk(cfg, s, Q) ==> HoldsOnDisk(cfg, Step(cfg, s, e), Q)
  {
    if Enabled(s, e) {
      var now := EventTime(s, e);
      if s.process.Some? {
        HoldsLater(cfg, s.clock, now, s.process.value.mem.episodes, Q);
      }
      if HoldsOnDisk(cfg, s, Q) {
        HoldsLater(cfg, s.clock, now, s.disk.value.episodes, Q);
      }
      if e.Tick? {
        var _ := TickKeeps(cfg, now, s.process.value.mem, e.sessions, Q);
      } else if e.Record? {
        RecordHolds(cfg, now, s.process.value.mem, s.process.value.pc.pending, e.result, Q);
      } else {
        StepEpisodes(cfg, s, e);
      }
    }
  }

  // ----- pacing

  /** The least time between the k-th action on a session and the next one. */
  function Gap(cfg: Config, k: nat): nat
    requires cfg.backoffs != [] && k > 0
  {
    Min(Delay(cfg, k), cfg.stablePeriod + cfg.gracePeriod)
  }

  /** After an action at `at`, the episode either waits until at + gap, or was reset by a
      whole stable period since and has its grace period still to come. */
  predicate Paced(cfg: Config, now: Time, e: Episode, at: Time, gap: nat) {
    && at <= now
    && if e.nextRetry != 0
       then at + gap <= e.nextRetry && (e.stableSince == 0 || at <= e.stableSince)
       else e.failingSince <= now && at + cfg.stablePeriod <= if e.failingSince == 0 then now else e.failingSince
  }

  lemma PacedKept(cfg: Config, pair: Pair, at: Time, gap: nat)
    requires ValidConfig(cfg) && gap <= cfg.stablePeriod + cfg.gracePeriod
    ensures Kept(cfg, (now: Time, p: Pair, e: Episode) => p == pair ==> Paced(cfg, now, e, at, gap))
  {
    forall t, p, e, child, seen, sick | t > 0 && Paced(cfg, t, e, at, gap)
      ensures Paced(cfg, t, PlanEpisode(cfg, t, p, e, child, seen, sick).episode, at, gap)
    {
    }
  }

  lemma PacedWhenDue(cfg: Config, now: Time, e: Episode, at: Time, gap: nat)
    requires Paced(cfg, now, e, at, gap) && Due(cfg, now, e) && gap <= cfg.stablePeriod + cfg.gracePeriod
    ensures at + gap <= now
  {
  }

  predicate OnSession(log: seq<Entry>, i: nat) {
    i < |log| && log[i].Executed? && log[i].pair.Some?
  }

  /** The state file, or the same process, carries what entry i recorded to the end of the log. */
  predicate Carried(cfg: Config, log: seq<Entry>, i: nat) {
    cfg.persist || forall k :: i <= k < |log| ==> !log[k].Booted?
  }

  /** A later action on the same session is far enough away. */
  predicate SpacedFrom(cfg: Config, log: seq<Entry>, i: nat, j: nat)
    requires cfg.backoffs != [] && OnSession(log, i)
  {
    i < j && OnSession(log, j) && log[j].pair == log[i].pair && Carried(cfg, log[..j], i) ==>
      log[i].attempt > 0 && log[i].at + Gap(cfg, log[i].attempt) <= log[j].at
  }

  ghost function PacedFrom(cfg: Config, entry: Entry): EpisodeProperty
    requires ValidConfig(cfg) && entry.Executed? && entry.pair.Some? && entry.attempt > 0
  {
    (now: Time, p: Pair, e: Episode) => p == entry.pair.value ==> Paced(cfg, now, e, entry.at, Gap(cfg, entry.attempt))
  }

  ghost predicate PacingInv(cfg: Config, s: System, i: nat)
    requires ValidConfig(cfg) && OnSession(s.log, i)
  {
    var entry := s.log[i];
    && entry.attempt > 0
    && (Carried(cfg, s.log, i) ==>
      && HoldsInMemory(cfg, s, PacedFrom(cfg, entry))
      && (cfg.persist ==> HoldsOnDisk(cfg, s, PacedFrom(cfg, entry)))
      && (s.process.Some? && s.process.value.pc.Acting? && s.process.value.pc.pending.pair == entry.pair ==>
          entry.at + Gap(cfg, entry.attempt) <= s.process.value.pc.at))
    && (forall j: nat :: SpacedFrom(cfg, s.log, i, j))
  }

  lemma StepLog(cfg: Config, s: System, e: Event)
    requires Fits(cfg, s)
    ensures var s' := Step(cfg, s, e);
      && s.log <= s'.log && |s'.log| <= |s.log| + 1 && s.clock <= s'.clock
      && (e.Boot? && Enabled(s, e) ==> s'.log == s.log + [Booted(e.now)])
      && (|s.log| < |s'.log| && s'.log[|s.log|].Executed? ==>
          Enabled(s, e) && e.Execute? && s'.log[|s.log|] == ExecutedEntry(s.process.value))
  {
  }

  lemma StepKeepsPaced(cfg: Config, s: System, e: Event, i: nat)
    requires Fits(cfg, s) && SystemOk(cfg, s) && OnSession(s.log, i) && PacingInv(cfg, s, i)
    requires Carried(cfg, Step(cfg, s, e).log, i) && Carried(cfg, s.log, i)
    ensures var s' := Step(cfg, s, e);
      var entry := s.log[i];
      && HoldsInMemory(cfg, s', PacedFrom(cfg, entry))
      && (cfg.persist ==> HoldsOnDisk(cfg, s', PacedFrom(cfg, entry)))
      && (s'.process.Some? && s'.process.value.pc.Acting? && s'.process.value.pc.pending.pair == entry.pair ==>
          entry.at + Gap(cfg, entry.attempt) <= s'.process.value.pc.at)
  {
    var entry := s.log[i];
    var Q := PacedFrom(cfg, entry);
    PacedKept(cfg, entry.pair.value, entry.at, Gap(cfg, entry.attempt));
    StepLog(cfg, s, e);
    StepKeeps(cfg, s, e, Q);
    if e.Tick? && Enabled(s, e) {
      var c := TickKeeps(cfg, e.now, s.process.value.mem, e.sessions, Q);
      var pending := TickPending(cfg, e.now, s.process.value.mem, e.sessions);
      if pending.Some? && pending.value.pair == entry.pair {
        PacedWhenDue(cfg, e.now, c.before, entry.at, Gap(cfg, entry.attempt));
      }
    }
  }

  lemma StepKeepsPacing(cfg: Config, s: System, e: Event, i: nat)
    requires Fits(cfg, s) && SystemOk(cfg, s) && OnSession(s.log, i) && PacingInv(cfg, s, i)
    ensures OnSession(Step(cfg, s, e).log, i) && PacingInv(cfg, Step(cfg, s, e), i)
  {
    var s' := Step(cfg, s, e);
    StepLog(cfg, s, e);
    if Carried(cfg, s'.log, i) {
      assert Carried(cfg, s.log, i) by {
        assert forall k :: i <= k < |s.log| ==> s.log[k] == s'.log[k];
      }
      StepKeepsPaced(cfg, s, e, i);
    }
    forall j: nat
      ensures SpacedFrom(cfg, s'.log, i, j)
    {
      if j < |s.log| {
        assert s'.log[..j] == s.log[..j];
        assert SpacedFrom(cfg, s.log, i, j);
      } else if j < |s'.log| {
        assert s'.log[..j] == s.log;
      }
    }
  }

  lemma NewEntryPaced(cfg: Config, s: System)
    requires Fits(cfg, s) && SystemOk(cfg, s) && Enabled(s, Execute)
    ensures var s' := Step(cfg, s, Execute);
      OnSession(s'.log, |s.log|) ==> PacingInv(cfg, s', |s.log|)
  {
    var s' := Step(cfg, s, Execute);
    if OnSession(s'.log, |s.log|) {
      var x := s.process.value;
      var p := x.pc.pending.pair.value;
      assert Paced(cfg, s.clock, x.mem.episodes[p], x.pc.at, Gap(cfg, x.mem.episodes[p].attempts));
    }
  }

  lemma {:induction false} RunKeepsPacing(cfg: Config, events: seq<Event>, i: nat)
    requires ValidConfig(cfg) && OnSession(Run(cfg, events).log, i)
    ensures PacingInv(cfg, Run(cfg, events), i)
  {
    var s := Run(cfg, events[..|events| - 1]);
    var e := events[|events| - 1];
    RunOk(cfg, events[..|events| - 1]);
    if i < |s.log| {
      RunKeepsPacing(cfg, events[..|events| - 1], i);
      StepKeepsPacing(cfg, s, e, i);
    } else {
      assert Enabled(s, e) && e.Execute?;
      NewEntryPaced(cfg, s);
    }
  }

  /** Crash-safe pacing. In every run, two actions executed for one session are at least the delay of the
      earlier attempt apart, or a stable period and a grace period apart when that is less; with a state file
      this holds across any number of crashes and reloads, without one it holds within a process. */
  lemma ActionsArePaced(cfg: Config, events: seq<Event>, i: nat, j: nat)
    requires ValidConfig(cfg)
    requires i < j && OnSession(Run(cfg, events).log, i) && OnSession(Run(cfg, events).log, j)
    requires Run(cfg, events).log[i].pair == Run(cfg, events).log[j].pair
    requires Carried(cfg, Run(cfg, events).log[..j], i)
    ensures var log := Run(cfg, events).log;
      var k := log[i].attempt;
      && k > 0
      && var d := if k > |cfg.backoffs| then cfg.circuitOpen else cfg.backoffs[k - 1];
         var recovery := cfg.stablePeriod + cfg.gracePeriod;
         log[i].at + (if d < recovery then d else recovery) <= log[j].at
  {
    RunKeepsPacing(cfg, events, i);
    assert SpacedFrom(cfg, Run(cfg, events).log, i, j);
  }

  /** Write-ahead. Whenever an action is about to run, the state file already holds its attempt, its result
      "in progress" and the retry time that follows it; for a restart also the child's reserved window. */
  lemma ActionsAreWrittenAhead(cfg: Config, events: seq<Event>)
    requires ValidConfig(cfg) && cfg.persist && Enabled(Run(cfg, events), Execute)
    ensures var s := Run(cfg, events);
      var entry := ExecutedEntry(s.process.value);
      && Step(cfg, s, Execute).log == s.log + [entry]
      && s.disk.Some? && entry.action != RecoveryNone
      && (entry.pair.Some? ==>
          && entry.pair.value in s.disk.value.episodes
          && var e := s.disk.value.episodes[entry.pair.value];
             var k := entry.attempt;
             && e.attempts == k > 0
             && e.nextRetry == entry.at + (if k > |cfg.backoffs| then cfg.circuitOpen else cfg.backoffs[k - 1])
             && e.lastAction == entry.action && e.lastResult == InProgress)
      && (entry.action == RecoveryRestartChild ==>
          var c := s.disk.value.child;
          var k := entry.childAttempt;
          && c.attempts == k > 0
          && c.nextRetry == entry.at + if k > |cfg.childBackoffs| then cfg.circuitOpen else cfg.childBackoffs[k - 1])
  {
    RunOk(cfg, events);
  }
}
