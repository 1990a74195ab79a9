/** How soon after a clearing of the budget Reconcile can restart the child: the bound on half-open probes is tight,
    because bootstraps that fail in one process after the other advance the budget without waiting for any session. */
module EarlyProbe {
  import opened Common
  import opened Recovery
  import opened RecoveryRuns
  import opened RecoveryPhases
  import opened RecoveryPacing
  import opened ChildBudget
  import opened BudgetReset

  /** A report in which every pair is Up. */
  function AllUp(pairs: seq<Pair>): (r: seq<Session>)
    ensures forall p :: p in pairs ==> SeenUp(Observed(r), p)
  {
    if pairs == [] then []
    else
      var last := Session(pairs[|pairs| - 1], SessionUp);
      var r := AllUp(pairs[..|pairs| - 1]) + [last];
      assert r[..|r| - 1] == AllUp(pairs[..|pairs| - 1]);
      assert forall p :: p in pairs ==> p in pairs[..|pairs| - 1] || p == last.pair;
      r
  }

  lemma {:induction false} SweepStartsStability(cfg: Config, now: Time, episodes: Episodes, child: Child, ready: bool,
                                                observed: map<Pair, SessionState>, sick: bool, i: nat, p: Pair)
    requires ValidConfig(cfg) && now > 0 && Covers(cfg, episodes) && i <= |cfg.expected| && p in cfg.expected
    requires forall q :: q in cfg.expected ==> SeenUp(observed, q)
    ensures p in cfg.expected[i..] || episodes[p].stableSince != 0 ==>
      SweepFrom(cfg, now, episodes, child, ready, observed, sick, i).episodes[p].stableSince != 0
    decreases |cfg.expected| - i
  {
    if i < |cfg.expected| {
      var q := cfg.expected[i];
      assert SeenUp(observed, q);
      var r := PlanEpisode(cfg, now, q, episodes[q], child, Seen(observed, q), sick);
      assert cfg.expected[i..] == [q] + cfg.expected[i + 1..];
      SweepStartsStability(cfg, now, episodes[q := r.episode], r.child, ready && SeenUp(observed, q), observed, sick,
                           i + 1, p);
    }
  }

  /** A process that has not bootstrapped, between two calls, with this budget. */
  predicate Resting(s: System, child: Child) {
    && s.process.Some? && s.process.value.pc.Idle?
    && !s.process.value.mem.bootstrapAttempted && s.process.value.mem.child == child
  }

  lemma TickRests(cfg: Config, s: System, e: Event)
    requires Fits(cfg, s) && s.process.Some? && e.Tick? && Enabled(s, e) && Resting(s, s.process.value.mem.child)
    requires forall p :: p in cfg.expected ==> SeenUp(Observed(e.sessions), p)
    ensures var s' := Step(cfg, s, e);
      && s'.process.Some? && s'.clock == e.now && Resting(s', s'.process.value.mem.child)
      && s'.process.value.mem.episodes == Plan(cfg, e.now, s.process.value.mem, Observed(e.sessions)).episodes
      && (ClearsBudget(cfg, e.now, s.process.value.mem, Observed(e.sessions)) ==>
            s'.log == s.log + [Cleared(e.now, Accepted(cfg, e.save))] && s'.process.value.mem.child == Child(0, 0, 0))
  {
    var m := s.process.value.mem;
    var observed := Observed(e.sessions);
    assert cfg.expected[0] in cfg.expected;
    assert SeenUp(observed, cfg.expected[0]);
    SweepAllUp(cfg, e.now, m.episodes, m.child, true, observed, AllUnhealthy(cfg, observed), 0);
  }

  lemma TickStartsStability(cfg: Config, now: Time, m: Memory, observed: map<Pair, SessionState>)
    requires ValidConfig(cfg) && now > 0 && Covers(cfg, m.episodes)
    requires forall p :: p in cfg.expected ==> SeenUp(observed, p)
    ensures forall p :: p in cfg.expected ==> Plan(cfg, now, m, observed).episodes[p].stableSince != 0
  {
    assert SeenUp(observed, cfg.expected[0]);
    forall p | p in cfg.expected
      ensures Plan(cfg, now, m, observed).episodes[p].stableSince != 0
    {
      SweepStartsStability(cfg, now, m.episodes, m.child, true, observed, AllUnhealthy(cfg, observed), 0, p);
      assert cfg.expected[0..] == cfg.expected;
    }
  }

  /** A new process that sees every session Up. */
  lemma FirstUpTick(cfg: Config) returns (events: seq<Event>)
    requires ValidConfig(cfg)
    ensures var s := Run(cfg, events);
      && s.process.Some? && Resting(s, s.process.value.mem.child) && s.clock == 1
      && forall p :: p in cfg.expected ==> s.process.value.mem.episodes[p].stableSince != 0
  {
    var tick := Tick(1, AllUp(cfg.expected), Saved);
    RunAppend(cfg, [], Boot(1));
    var s := Run(cfg, [] + [Boot(1)]);
    assert s == BootStep(cfg, Initial, 1);
    RunAppend(cfg, [] + [Boot(1)], tick);
    TickRests(cfg, s, tick);
    TickStartsStability(cfg, 1, s.process.value.mem, Observed(tick.sessions));
    events := [] + [Boot(1)] + [tick];
  }

  /** A run that boots and sees every session Up for a stable period clears the budget. */
  lemma ClearingIsReachable(cfg: Config) returns (events: seq<Event>)
    requires ValidConfig(cfg)
    ensures var s := Run(cfg, events);
      && Resting(s, Child(0, 0, 0)) && s.clock > 0
      && s.log != [] && s.log[|s.log| - 1] == Cleared(s.clock, true)
  {
    events := FirstUpTick(cfg);
    var s := Run(cfg, events);
    var tick := Tick(1 + cfg.stablePeriod, AllUp(cfg.expected), Saved);
    forall p | p in cfg.expected
      ensures StableBefore(cfg, tick.now, s.process.value.mem.episodes[p])
    {
      PhasesAgree(cfg, events, p);
    }
    ClearsExactlyWhenStable(cfg, tick.now, s.process.value.mem, Observed(tick.sessions));
    TickRests(cfg, s, tick);
    RunAppend(cfg, events, tick);
    events := events + [tick];
  }

  /** A bootstrap that fails, a crash, and a new process at the end of the window that the failure reserved. */
  lemma FailedBootstrap(cfg: Config, events: seq<Event>, child: Child) returns (events': seq<Event>)
    requires ValidConfig(cfg) && cfg.persist && Resting(Run(cfg, events), child)
    requires var now := Run(cfg, events).clock; now > 0 && !ChildCircuitOpen(child, now) && !ChildWaiting(child, now)
    ensures var s, s' := Run(cfg, events), Run(cfg, events');
      var next := s.clock + ChildDelay(cfg, child.attempts + 1);
      && Resting(s', Reserve(cfg, child, s.clock)) && s'.clock == next
      && s'.log == s.log + [Bootstrapped(s.clock), Booted(next)]
  {
    var now := Run(cfg, events).clock;
    var next := now + ChildDelay(cfg, child.attempts + 1);
    var e1, e2, e3 := Bootstrap(now, Saved), RunBootstrap, FinishBootstrap(false, Saved);
    RunAppend(cfg, events, e1);
    RunAppend(cfg, events + [e1], e2);
    RunAppend(cfg, events + [e1] + [e2], e3);
    var failed := events + [e1] + [e2] + [e3];
    var s := Run(cfg, events);
    assert Run(cfg, events + [e1] + [e2]).log == s.log + [Bootstrapped(now)];
    assert Run(cfg, failed).log == s.log + [Bootstrapped(now)] && Run(cfg, failed).clock == now;
    assert Run(cfg, failed).disk.Some? && Run(cfg, failed).disk.value.child == Reserve(cfg, child, now);
    events' := Reboot(cfg, failed, next);
  }

  lemma Reboot(cfg: Config, events: seq<Event>, next: Time) returns (events': seq<Event>)
    requires ValidConfig(cfg) && cfg.persist && Run(cfg, events).disk.Some? && Run(cfg, events).process.Some?
    requires 0 < Run(cfg, events).clock <= next
    ensures var s, s' := Run(cfg, events), Run(cfg, events');
      && Resting(s', s.disk.value.child) && s'.clock == next && s'.log == s.log + [Booted(next)]
  {
    RunAppend(cfg, events, Crash);
    RunAppend(cfg, events + [Crash], Boot(next));
    events' := events + [Crash] + [Boot(next)];
  }

  /** k failed bootstraps after a clearing at `at`. */
  predicate Failed(cfg: Config, s: System, at: Time, i: nat, k: nat)
    requires ValidConfig(cfg)
  {
    && s.process.Some? && Resting(s, s.process.value.mem.child) && s.clock == at + Ladder(cfg, k)
    && i < |s.log| && s.log[i] == Cleared(at, true)
    && var c := s.process.value.mem.child;
       && c.attempts == k && c.nextRetry == (if k == 0 then 0 else s.clock)
       && (c.circuitUntil == 0 || c.circuitUntil == c.nextRetry)
  }

  lemma {:induction false} FailuresClimb(cfg: Config, k: nat) returns (events: seq<Event>, at: Time, i: nat)
    requires ValidConfig(cfg) && cfg.persist
    ensures at > 0 && Failed(cfg, Run(cfg, events), at, i, k)
  {
    if k == 0 {
      events := ClearingIsReachable(cfg);
      at, i := Run(cfg, events).clock, |Run(cfg, events).log| - 1;
    } else {
      events, at, i := FailuresClimb(cfg, k - 1);
      events := FailedBootstrap(cfg, events, Run(cfg, events).process.value.mem.child);
    }
  }

  lemma ProbeRuns(cfg: Config, events: seq<Event>) returns (events': seq<Event>)
    requires ValidConfig(cfg)
    requires var s := Run(cfg, events);
      && s.clock > 0 && s.process.Some? && s.process.value.pc.Idle?
      && ChildHalfOpenDue(cfg, s.process.value.mem.child, s.clock)
    ensures var s, s' := Run(cfg, events), Run(cfg, events');
      && |s'.log| == |s.log| + 1 && s'.log[..|s.log|] == s.log
      && OnChild(s'.log, |s.log|) && s'.log[|s.log|].at == s.clock && s'.log[|s.log|].pair.None?
  {
    var s := Run(cfg, events);
    var tick := Tick(s.clock, [], Saved);
    RunAppend(cfg, events, tick);
    PendingNotCleared(cfg, s.clock, s.process.value.mem, Observed([]));
    RunAppend(cfg, events + [tick], Execute);
    events' := events + [tick] + [Execute];
  }

  /** For every configuration with a state file there is a run in which a half-open probe executes exactly the whole
      child ladder and one circuit interval after a saved clearing. */
  lemma ProbeAtTheBound(cfg: Config) returns (events: seq<Event>, i: nat, j: nat)
    requires ValidConfig(cfg) && cfg.persist
    ensures var log := Run(cfg, events).log;
      && i < j && IsClearing(log, i) && OnChild(log, j) && log[j].pair.None? && ClearingCarried(cfg, log[..j], i)
      && log[j].at == log[i].at + Ladder(cfg, |cfg.childBackoffs| + 1)
  {
    var at;
    events, at, i := FailuresClimb(cfg, |cfg.childBackoffs| + 1);
    j := |Run(cfg, events).log|;
    events := ProbeRuns(cfg, events);
  }

  // ----- without a state file

  /** How many restarts the budget may count while every restart by Reconcile since the clearing is still to come: the
      one bootstrap of the process, once it is over. */
  function BootstrapsDone(x: Process): nat {
    if x.mem.bootstrapAttempted && !x.pc.Starting? && !x.pc.Started? then 1 else 0
  }

  /** Since the clearing, either the wait is over or at most a bootstrap was counted; a restart that is planned
      waited. */
  predicate HeldOff(cfg: Config, s: System, x: Process, at: Time, wait: nat) {
    && (at + wait <= s.clock || x.mem.child.attempts <= BootstrapsDone(x))
    && (x.pc.Acting? && IsRestart(Some(x.pc.pending)) ==> at + wait <= x.pc.at)
    && (x.pc.Starting? || x.pc.Started? ==> x.mem.bootstrapAttempted)
  }

  /** A half-open probe is chosen only past the child's ladder. */
  lemma ProbeIsPastLadder(cfg: Config, now: Time, m: Memory, observed: map<Pair, SessionState>)
    requires ValidConfig(cfg) && Covers(cfg, m.episodes)
    ensures var pending := Plan(cfg, now, m, observed).pending;
      pending.Some? && pending.value.pair.None? ==> m.child.attempts >= 2
  {
    SweepPendingDown(cfg, now, m.episodes, m.child, true, observed, AllUnhealthy(cfg, observed), 0);
  }

  lemma TickHeldOff(cfg: Config, s: System, e: Event, at: Time)
    requires Fits(cfg, s) && e.Tick? && Enabled(s, e) && at > 0
    requires HoldsInMemory(cfg, s, QuietSince(cfg, at)) && ChildInMemory(s, QuietChild(cfg, at))
    requires HeldOff(cfg, s, s.process.value, at, QuietTime(cfg, true))
    ensures HeldOff(cfg, Step(cfg, s, e), Step(cfg, s, e).process.value, at, QuietTime(cfg, true))
  {
    var m, observed := s.process.value.mem, Observed(e.sessions);
    TickRestartIsLate(cfg, s, e, at);
    PlanChild(cfg, e.now, m, observed);
    ProbeIsPastLadder(cfg, e.now, m, observed);
  }

  lemma StepHeldOff(cfg: Config, s: System, e: Event, at: Time)
    requires Fits(cfg, s) && SystemOk(cfg, s) && !cfg.persist && s.process.Some? && at > 0
    requires HoldsInMemory(cfg, s, QuietSince(cfg, at)) && ChildInMemory(s, QuietChild(cfg, at))
    requires HeldOff(cfg, s, s.process.value, at, QuietTime(cfg, true))
    ensures var s' := Step(cfg, s, e);
      s'.process.Some? ==> HeldOff(cfg, s', s'.process.value, at, QuietTime(cfg, true))
  {
    if Enabled(s, e) && e.Tick? {
      TickHeldOff(cfg, s, e, at);
    }
  }

  ghost predicate NoFileInv(cfg: Config, s: System, i: nat)
    requires ValidConfig(cfg) && IsClearing(s.log, i)
  {
    && (ClearingCarried(cfg, s.log, i) && s.process.Some? ==>
          HeldOff(cfg, s, s.process.value, s.log[i].at, QuietTime(cfg, true)))
    && (forall j: nat :: i < j && OnChild(s.log, j) && ClearingCarried(cfg, s.log[..j], i) ==>
          s.log[i].at + QuietTime(cfg, true) <= s.log[j].at)
  }

  lemma StepKeepsNoFile(cfg: Config, s: System, e: Event, i: nat)
    requires Fits(cfg, s) && SystemOk(cfg, s) && !cfg.persist && IsClearing(s.log, i)
    requires QuietInv(cfg, s, i) && NoFileInv(cfg, s, i)
    ensures IsClearing(Step(cfg, s, e).log, i) && NoFileInv(cfg, Step(cfg, s, e), i)
  {
    var s' := Step(cfg, s, e);
    StepLog(cfg, s, e);
    assert s.process.None? && s'.process.Some? ==> |s.log| < |s'.log| && s'.log[|s.log|].Booted?;
    if ClearingCarried(cfg, s'.log, i) && s'.process.Some? {
      assert ClearingCarried(cfg, s.log, i) by {
        assert forall k :: i <= k < |s.log| ==> s.log[k] == s'.log[k];
      }
      StepHeldOff(cfg, s, e, s.log[i].at);
    }
    forall j: nat | i < j && OnChild(s'.log, j) && ClearingCarried(cfg, s'.log[..j], i)
      ensures s'.log[i].at + QuietTime(cfg, true) <= s'.log[j].at
    {
      if j < |s.log| {
        assert s'.log[..j] == s.log[..j];
      } else {
        assert s'.log[..j] == s.log;
      }
    }
  }

  lemma {:induction false} RunKeepsNoFile(cfg: Config, events: seq<Event>, i: nat)
    requires ValidConfig(cfg) && !cfg.persist && IsClearing(Run(cfg, events).log, i)
    ensures NoFileInv(cfg, Run(cfg, events), i)
  {
    var init, e := events[..|events| - 1], events[|events| - 1];
    var s := Run(cfg, init);
    RunOk(cfg, init);
    StepLog(cfg, s, e);
    if i < |s.log| {
      RunKeepsNoFile(cfg, init, i);
      RunKeepsQuiet(cfg, init, i);
      StepKeepsNoFile(cfg, s, e, i);
    } else {
      assert Clears(cfg, s, e);
      ClearingIsQuiet(cfg, s, e);
    }
  }

  // ----- the exact condition

  /** Every restart of the child by Reconcile keeps this distance from every earlier clearing that was carried to it, by
      the state file or by the same process. */
  ghost predicate RestartsWait(cfg: Config, wait: nat)
    requires ValidConfig(cfg)
  {
    forall events, i, j :: WaitsIn(cfg, events, i, j, wait)
  }

  ghost predicate WaitsIn(cfg: Config, events: seq<Event>, i: nat, j: nat, wait: nat)
    requires ValidConfig(cfg)
  {
    var log := Run(cfg, events).log;
    i < j && IsClearing(log, i) && OnChild(log, j) && ClearingCarried(cfg, log[..j], i) ==>
      log[i].at + wait <= log[j].at
  }

  /** A clearing keeps Reconcile from restarting the child for a grace period and the first backoff, in all runs, if and
      only if there is no state file, or the child ladder and one circuit interval together last at least as long. */
  lemma ClearingHoldsOffRestartsIff(cfg: Config)
    requires ValidConfig(cfg)
    ensures RestartsWait(cfg, cfg.gracePeriod + cfg.backoffs[0])
      <==> !cfg.persist || cfg.gracePeriod + cfg.backoffs[0] <= Ladder(cfg, |cfg.childBackoffs| + 1)
  {
    var wait := cfg.gracePeriod + cfg.backoffs[0];
    if !cfg.persist || wait <= Ladder(cfg, |cfg.childBackoffs| + 1) {
      forall events, i: nat, j: nat
        ensures WaitsIn(cfg, events, i, j, wait)
      {
        var log := Run(cfg, events).log;
        if i < j && IsClearing(log, i) && OnChild(log, j) && ClearingCarried(cfg, log[..j], i) {
          if cfg.persist {
            RestartsAfterClearing(cfg, events, i, j);
          } else {
            RunKeepsNoFile(cfg, events, i);
          }
        }
      }
    } else {
      var events, i, j := ProbeAtTheBound(cfg);
      assert !WaitsIn(cfg, events, i, j, wait);
    }
  }
}
