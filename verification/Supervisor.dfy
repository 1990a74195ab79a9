/** The supervisor as an object whose methods update its fields, proved against the rules in Recovery and the calls in
    SupervisorCalls. Status replies, action results and save outcomes are inputs. */
module SupervisorObject {
  import opened Common
  import opened Recovery
  import opened RecoveryRuns
  import opened SupervisorCalls

  class Supervisor {
    const config: Config
    var episodes: Episodes
    var childRecoveryAttempts: nat
    var childNextRetry: Time
    var childCircuitUntil: Time
    var childBootstrapAttempted: bool
    var inheritedCircuitUntil: Time
    var childRestarts: nat
    var status: Status
    var disk: Option<Persistent>

    ghost predicate Valid()
      reads this
    {
      ValidConfig(config) && EpisodesFit(config, episodes)
    }

    function Budget(): Child
      reads this
    {
      Child(childRecoveryAttempts, childNextRetry, childCircuitUntil)
    }

    function Mem(): Memory
      reads this
    {
      Memory(episodes, Budget(), childRestarts, childBootstrapAttempted, inheritedCircuitUntil)
    }

    constructor (config: Config, disk: Option<Persistent>, now: Time)
      requires ValidConfig(config)
      ensures Valid() && this.config == config && this.disk == disk
      ensures Mem() == Load(config, now, disk) && status == InitialStatus(config, Mem(), now)
      ensures !status.live && !status.ready && status.controlFailures == 0 && status.lastControlError == ""
    {
      this.config := config;
      this.disk := disk;
      episodes := map p | p in config.expected :: FreshEpisode(p);
      childRecoveryAttempts, childNextRetry, childCircuitUntil, childRestarts := 0, 0, 0, 0;
      childBootstrapAttempted, inheritedCircuitUntil := false, 0;
      status := Status(false, false, [], 0, "", 0, 0, 0, false);
      new;
      Initialize(now);
    }

    /** Loads the state file and notes a circuit that is open already. */
    method Initialize(now: Time)
      requires ValidConfig(config) && episodes == LoadedEpisodes(config, None) && Budget() == Child(0, 0, 0)
      requires childRestarts == 0 && !childBootstrapAttempted && inheritedCircuitUntil == 0
      requires !status.live && !status.ready && status.controlFailures == 0 && status.lastControlError == ""
      modifies this`episodes, this`childRecoveryAttempts, this`childNextRetry, this`childCircuitUntil,
               this`childRestarts, this`inheritedCircuitUntil, this`status
      ensures Mem() == Load(config, now, disk) && status == InitialStatus(config, Mem(), now)
    {
      LoadState();
      if ChildCircuitOpen(Budget(), now) {
        inheritedCircuitUntil := childCircuitUntil;
      }
      RefreshStatus(now);
    }

    /** Copies every saved episode whose pair is expected, in any order. */
    method LoadState()
      requires ValidConfig(config)
      requires episodes == LoadedEpisodes(config, None)
      modifies this`episodes, this`childRecoveryAttempts, this`childNextRetry, this`childCircuitUntil,
               this`childRestarts
      ensures var saved := if config.persist then disk else None;
        && episodes == LoadedEpisodes(config, saved)
        && Budget() == (if saved.Some? then saved.value.child else old(Budget()))
        && childRestarts == (if saved.Some? then saved.value.childRestarts else old(childRestarts))
    {
      if !config.persist || disk.None? {
        return;
      }
      var saved := disk.value;
      var keys := saved.episodes.Keys;
      while keys != {}
        invariant keys <= saved.episodes.Keys && Budget() == old(Budget())
        invariant episodes.Keys == set p | p in config.expected
        invariant forall p :: p in config.expected ==>
          episodes[p] == if p in keys then FreshEpisode(p) else LoadedEpisode(disk, p)
        decreases |keys|
      {
        var key :| key in keys;
        keys := keys - {key};
        if key in episodes && saved.episodes[key].pair == key {
          episodes := episodes[key := saved.episodes[key]];
        }
      }
      childRestarts := saved.childRestarts;
      childRecoveryAttempts := saved.child.attempts;
      childNextRetry := saved.child.nextRetry;
      childCircuitUntil := saved.child.circuitUntil;
    }

    /** Copies the episodes and the child's counters into the status. */
    method RefreshStatus(clock: Time)
      requires Covers(config, episodes)
      modifies this`status
      ensures var before := old(status);
        status == Report(config, Mem(), clock, before.live, before.ready, before.controlFailures,
                         before.lastControlError)
    {
      var sessions: seq<Episode> := [];
      for i := 0 to |config.expected|
        invariant sessions == Listed(config.expected[..i], episodes)
      {
        assert config.expected[..i + 1][..i] == config.expected[..i];
        sessions := sessions + [episodes[config.expected[i]]];
      }
      assert config.expected[..|config.expected|] == config.expected;
      status := Status(status.live, status.ready, sessions, status.controlFailures, status.lastControlError,
                       childRestarts, childRecoveryAttempts, childNextRetry, ChildCircuitOpen(Budget(), clock));
    }

    method ReserveChildRestart(now: Time) returns (ok: bool)
      requires ValidConfig(config)
      modifies this`childRecoveryAttempts, this`childNextRetry, this`childCircuitUntil
      ensures ok == !ChildWaiting(old(Budget()), now)
      ensures Budget() == if ok then Reserve(config, old(Budget()), now) else old(Budget())
    {
      if childNextRetry != 0 && now < childNextRetry {
        return false;
      }
      childRecoveryAttempts := childRecoveryAttempts + 1;
      if childRecoveryAttempts > |config.childBackoffs| {
        childCircuitUntil := now + config.circuitOpen;
        childNextRetry := childCircuitUntil;
        return true;
      }
      var backoffIndex := Min(childRecoveryAttempts - 1, |config.childBackoffs| - 1);
      childNextRetry := now + config.childBackoffs[backoffIndex];
      childCircuitUntil := 0;
      return true;
    }

    /** Plans one pair, and returns the action chosen for it or none. */
    method PlanEpisodeRecovery(now: Time, pair: Pair, seen: Option<SessionState>, allUnhealthy: bool)
      returns (action: Action)
      requires ValidConfig(config) && pair in episodes
      modifies this`episodes, this`status, this`childRecoveryAttempts, this`childNextRetry, this`childCircuitUntil
      ensures var r := PlanEpisode(config, now, pair, old(episodes)[pair], old(Budget()), seen, allUnhealthy);
        action == r.action && Budget() == r.child && episodes == old(episodes)[pair := r.episode]
      ensures status == if seen == Some(SessionUp) then old(status) else old(status).(ready := false)
    {
      action := RecoveryNone;
      var episode := episodes[pair];
      episode := episode.(state := NoState);
      if seen.Some? {
        episode := episode.(state := seen.value);
      }
      if seen == Some(SessionUp) {
        episodes := episodes[pair := MarkUp(config, now, pair, episode)];
        return;
      }
      status := status.(ready := false);
      episode := episode.(stableSince := 0);
      if episode.failingSince == 0 {
        episodes := episodes[pair := episode.(failingSince := now, phase := RecoveryGrace)];
        return;
      }
      if now < episode.failingSince + config.gracePeriod {
        episodes := episodes[pair := episode.(phase := RecoveryGrace)];
        return;
      }
      if episode.nextRetry != 0 && now < episode.nextRetry {
        episodes := episodes[pair := MarkWaiting(now, episode)];
        return;
      }
      var chosen := SelectAction(config, episode.attempts, seen.Some?, allUnhealthy);
      if chosen == RecoveryNone {
        episodes := episodes[pair := episode];
        return;
      }
      if chosen == RecoveryRestartChild {
        var ok := ReserveChildRestart(now);
        if !ok {
          episodes := episodes[pair := MarkWaiting(now, episode.(nextRetry := childNextRetry))];
          return;
        }
      }
      episodes := episodes[pair := Schedule(config, now, episode, chosen)];
      action := chosen;
    }

    /** One pair of the sweep. */
    method SweepOne(now: Time, observed: map<Pair, SessionState>, allUnhealthy: bool, i: nat)
      returns (pending: Option<Pending>)
      requires ValidConfig(config) && Covers(config, episodes) && i < |config.expected|
      modifies this`episodes, this`status, this`childRecoveryAttempts, this`childNextRetry, this`childCircuitUntil
      ensures Covers(config, episodes) && status == old(status).(ready := status.ready)
      ensures SweepFrom(config, now, old(episodes), old(Budget()), old(status.ready), observed, allUnhealthy, i)
        == if pending.Some? then Sweep(episodes, Budget(), status.ready, pending)
           else SweepFrom(config, now, episodes, Budget(), status.ready, observed, allUnhealthy, i + 1)
    {
      var pair := config.expected[i];
      var action := PlanEpisodeRecovery(now, pair, Seen(observed, pair), allUnhealthy);
      pending := if action == RecoveryNone then None else Some(Pending(Some(pair), action));
    }

    /** The sweep over the expected pairs, which breaks at the first chosen action. */
    method SweepEpisodes(now: Time, observed: map<Pair, SessionState>, allUnhealthy: bool)
      returns (pending: Option<Pending>)
      requires ValidConfig(config) && Covers(config, episodes)
      modifies this`episodes, this`status, this`childRecoveryAttempts, this`childNextRetry, this`childCircuitUntil
      ensures Sweep(episodes, Budget(), status.ready, pending)
        == SweepFrom(config, now, old(episodes), old(Budget()), old(status.ready), observed, allUnhealthy, 0)
      ensures status == old(status).(ready := status.ready)
    {
      pending := None;
      ghost var sweep := SweepFrom(config, now, episodes, Budget(), status.ready, observed, allUnhealthy, 0);
      var i := 0;
      while i < |config.expected|
        invariant 0 <= i <= |config.expected| && Covers(config, episodes) && pending.None?
        invariant status == old(status).(ready := status.ready)
        invariant sweep == SweepFrom(config, now, episodes, Budget(), status.ready, observed, allUnhealthy, i)
      {
        pending := SweepOne(now, observed, allUnhealthy, i);
        if pending.Some? {
          return;
        }
        i := i + 1;
      }
    }

    /** The half-open probe when every session is down and the child's window is over, or else the sweep. */
    method PlanActions(now: Time, observed: map<Pair, SessionState>, allUnhealthy: bool)
      returns (pending: Option<Pending>)
      requires Valid() && allUnhealthy == AllUnhealthy(config, observed)
      modifies this`episodes, this`status, this`childRecoveryAttempts, this`childNextRetry, this`childCircuitUntil
      ensures Sweep(episodes, Budget(), status.ready, pending) == Plan(config, now, old(Mem()), observed)
      ensures status == old(status).(ready := status.ready)
    {
      pending := None;
      if allUnhealthy && ChildHalfOpenDue(config, Budget(), now) {
        status := status.(ready := false);
        var ok := ReserveChildRestart(now);
        if ok {
          pending := Some(Pending(None, RecoveryRestartChild));
        }
      } else {
        status := status.(ready := true);
        pending := SweepEpisodes(now, observed, allUnhealthy);
      }
    }

    /** Clears the child's budget when every expected session is stable. */
    method ClearBudgetIfStable(now: Time, allUnhealthy: bool)
      requires Covers(config, episodes)
      modifies this`childRecoveryAttempts, this`childNextRetry, this`childCircuitUntil, this`inheritedCircuitUntil
      ensures if !allUnhealthy && AllStable(config, now, episodes)
              then Budget() == Child(0, 0, 0) && inheritedCircuitUntil == 0
              else Budget() == old(Budget()) && inheritedCircuitUntil == old(inheritedCircuitUntil)
    {
      var stable := AllExpectedStable(now);
      if !allUnhealthy && stable {
        childRecoveryAttempts := 0;
        childNextRetry := 0;
        childCircuitUntil := 0;
        inheritedCircuitUntil := 0;
      }
    }

    /** The plan of a tick and the clearing of the budget. */
    method PlanAndClear(now: Time, sessions: seq<Session>) returns (pending: Option<Pending>)
      requires Valid()
      modifies this`episodes, this`status, this`childRecoveryAttempts, this`childNextRetry, this`childCircuitUntil,
               this`inheritedCircuitUntil
      ensures Mem() == TickMemory(config, now, old(Mem()), sessions)
      ensures pending == TickPending(config, now, old(Mem()), sessions)
      ensures status == old(status).(ready := Plan(config, now, old(Mem()), Observed(sessions)).ready)
    {
      var observed := Observe(sessions);
      var allUnhealthy := NoneUp(observed);
      pending := PlanActions(now, observed, allUnhealthy);
      ClearBudgetIfStable(now, allUnhealthy);
    }

    /** The planning part of a tick, up to the state that is saved. */
    method PlanSessionRecovery(now: Time, sessions: seq<Session>, running: bool) returns (pending: Option<Pending>)
      requires Valid() && now > 0
      modifies this`episodes, this`status, this`childRecoveryAttempts, this`childNextRetry, this`childCircuitUntil,
               this`inheritedCircuitUntil
      ensures Mem() == TickMemory(config, now, old(Mem()), sessions)
      ensures pending == TickPending(config, now, old(Mem()), sessions)
      ensures status == TickStatus(config, now, old(Mem()), sessions, running)
    {
      pending := PlanAndClear(now, sessions);
      status := Status(running && !CircuitFailsLiveness(Mem(), now), status.ready, [], 0, "", 0, 0, 0, false);
      RefreshStatus(now);
    }

    method Observe(sessions: seq<Session>) returns (observed: map<Pair, SessionState>)
      ensures observed == Observed(sessions)
    {
      observed := map[];
      for i := 0 to |sessions|
        invariant observed == Observed(sessions[..i])
      {
        assert sessions[..i + 1][..i] == sessions[..i];
        observed := observed[sessions[i].pair := sessions[i].state];
      }
      assert sessions[..|sessions|] == sessions;
    }

    method NoneUp(observed: map<Pair, SessionState>) returns (sick: bool)
      ensures sick == AllUnhealthy(config, observed)
    {
      sick := true;
      for i := 0 to |config.expected|
        invariant sick
        invariant forall k :: 0 <= k < i ==> !SeenUp(observed, config.expected[k])
      {
        if SeenUp(observed, config.expected[i]) {
          return false;
        }
      }
    }

    method AllExpectedStable(now: Time) returns (stable: bool)
      requires Covers(config, episodes)
      ensures stable == AllStable(config, now, episodes)
    {
      stable := true;
      for i := 0 to |config.expected|
        invariant stable
        invariant forall k :: 0 <= k < i ==> StableUp(config, now, episodes[config.expected[k]])
      {
        if !StableUp(config, now, episodes[config.expected[i]]) {
          return false;
        }
      }
    }

    method SaveState(save: Save) returns (ok: bool)
      modifies this`disk
      ensures disk == Written(config, old(disk), Mem(), save) && ok == Accepted(config, save)
    {
      if !config.persist {
        return true;
      }
      if save != Lost {
        disk := Some(Persistent(episodes, childRestarts, Budget()));
      }
      return save == Saved;
    }

    method RecordRecoveryResult(now: Time, pending: Pending, result: Result, running: bool)
      requires Covers(config, episodes) && (pending.pair.Some? ==> pending.pair.value in episodes)
      modifies this`episodes, this`childRestarts, this`status
      ensures Mem() == RecordMemory(old(Mem()), pending, result)
      ensures status == RecordStatus(config, now, Mem(), old(status), pending, result, running)
    {
      if pending.pair.Some? {
        episodes := episodes[pending.pair.value := episodes[pending.pair.value].(lastResult := result)];
      }
      if result == Success && pending.action == RecoveryRestartChild {
        childRestarts := childRestarts + 1;
      }
      assert Mem() == RecordMemory(old(Mem()), pending, result);
      if pending.action == RecoveryRestartChild && result != Success {
        status := status.(live := !CircuitFailsLiveness(Mem(), now));
      } else {
        status := status.(live := running && !CircuitFailsLiveness(Mem(), now));
      }
      RefreshStatus(now);
    }

    method ReconcileControlFailure(now: Time, error: string, running: bool)
      requires Valid()
      modifies this`status
      ensures status == FailureStatus(config, now, Mem(), old(status), error, running)
    {
      status := status.(controlFailures := status.controlFailures + 1, lastControlError := error, ready := false);
      if running {
        status := status.(live := !CircuitFailsLiveness(Mem(), now));
      } else if CircuitFailsLiveness(Mem(), now) {
        status := status.(live := false);
      } else {
        status := status.(live := childNextRetry != 0 && now < childNextRetry);
      }
      RefreshStatus(now);
    }

    /** The effects of one reconciliation, in order: query, plan, save, act, record, save. */
    method RunReconcile(now: Time, a: Answers) returns (executed: Option<Pending>)
      requires Valid() && now > 0
      modifies this
      ensures Outcome(Mem(), disk, executed) == ReconcileOutcome(config, now, old(Mem()), old(disk), a)
      ensures Covers(config, episodes)
      ensures status == ReconcileStatus(config, now, old(Mem()), old(status), a, executed, Mem())
    {
      executed := None;
      if a.status.None? {
        ReconcileControlFailure(now, a.statusError, a.running);
        return;
      }
      PlanFits(config, now, Mem(), Observed(a.status.value));
      var pending := PlanSessionRecovery(now, a.status.value, a.running);
      var saved := SaveState(a.save);
      if !saved || pending.None? {
        return;
      }
      executed := pending;
      RecordRecoveryResult(a.later, pending.value, a.result, a.runningLater);
      var _ := SaveState(a.saveLater);
    }

    /** One reconciliation; `executed` is the action that ran, after the state that records it was saved. */
    method Reconcile(now: Time, a: Answers) returns (executed: Option<Pending>)
      requires Valid() && 0 < now <= a.later
      modifies this
      ensures Valid()
      ensures Outcome(Mem(), disk, executed) == CallOutcome(config, old(Mem()), old(disk), Reconciling(now, a))
      ensures status == ReconcileStatus(config, now, old(Mem()), old(status), a, executed, Mem())
    {
      ghost var m := Mem();
      executed := RunReconcile(now, a);
      ReconcileFits(config, now, m, old(disk), a);
    }

    /** The bootstrap restart, once per process; `executed` tells whether the child was restarted. */
    method StartChild(now: Time, save: Save, started: bool, running: bool, saveLater: Save) returns (executed: bool)
      requires Valid() && now > 0
      modifies this
      ensures Valid()
      ensures var o := CallOutcome(config, old(Mem()), old(disk),
                                   StartingChild(now, save, started, running, saveLater));
        Mem() == o.mem && disk == o.disk && executed == o.executed.Some?
      ensures status == if executed
                        then BootstrapStatus(config, now, Mem(), old(status), started, running) else old(status)
    {
      executed := false;
      if childBootstrapAttempted {
        return;
      }
      childBootstrapAttempted := true;
      var bootstrapHalfOpen := ChildHalfOpenDue(config, Budget(), now);
      var saved := SaveState(save);
      if !saved {
        childBootstrapAttempted := false;
        return;
      }
      executed := true;
      FinishBootstrapAttempt(now, bootstrapHalfOpen, started, running);
      var _ := SaveState(saveLater);
    }

    method FinishBootstrapAttempt(now: Time, bootstrapHalfOpen: bool, started: bool, running: bool)
      requires Valid()
      modifies this`childRecoveryAttempts, this`childNextRetry, this`childCircuitUntil,
               this`inheritedCircuitUntil, this`status
      ensures Mem() == BootstrapMemory(config, now, old(Mem()), bootstrapHalfOpen, started)
      ensures status == BootstrapStatus(config, now, Mem(), old(status), started, running)
    {
      if !started && !ChildCircuitOpen(Budget(), now) && (childNextRetry == 0 || childNextRetry <= now) {
        var _ := ReserveChildRestart(now);
      }
      if started && bootstrapHalfOpen {
        var _ := ReserveChildRestart(now);
        inheritedCircuitUntil := childCircuitUntil;
      }
      if !started {
        status := status.(live := !CircuitFailsLiveness(Mem(), now));
      } else {
        status := status.(live := running && !CircuitFailsLiveness(Mem(), now));
      }
      status := status.(ready := false);
      RefreshStatus(now);
    }
  }

  /** Builds a supervisor unless its timing or its pairs are invalid. */
  method NewSupervisor(config: Config, disk: Option<Persistent>, now: Time) returns (s: Supervisor?)
    ensures s == null <==> config.gracePeriod == 0 || config.stablePeriod == 0 || config.circuitOpen == 0
                           || config.backoffs == [] || config.expected == []
    ensures s != null ==> s.config == config.(childBackoffs := if config.childBackoffs == [] then config.backoffs
                                                               else config.childBackoffs)
    ensures s != null ==> fresh(s) && s.Valid() && s.Mem() == Load(Normalized(config), now, disk)
  {
    var normalized := config;
    if config.childBackoffs == [] {
      normalized := config.(childBackoffs := config.backoffs);
    }
    if !ValidConfig(normalized) {
      return null;
    }
    s := new Supervisor(normalized, disk, now);
  }

  /** One call on a supervisor. */
  method Handle(s: Supervisor, c: Call)
    requires s.Valid() && 0 < c.now <= CallEnd(c)
    modifies s
    ensures s.Valid()
    ensures var o := CallOutcome(s.config, old(s.Mem()), old(s.disk), c); s.Mem() == o.mem && s.disk == o.disk
  {
    match c
    case Reconciling(now, a) =>
      var _ := s.Reconcile(now, a);
    case StartingChild(now, save, started, running, saveLater) =>
      var _ := s.StartChild(now, save, started, running, saveLater);
  }

  /** A supervisor process: it is built over the state file that an earlier run left, and then called again and again.
      Its memory and state file are those of the run that boots and goes through the same calls; so what is proved of
      runs holds of the object. */
  method Supervise(config: Config, disk: Option<Persistent>, now: Time, calls: seq<Call>, ghost before: seq<Event>)
    returns (s: Supervisor)
    requires ValidConfig(config) && Run(config, before).process.None? && disk == Run(config, before).disk
    requires Run(config, before).clock <= now && 0 < now && InOrder(now, calls)
    ensures fresh(s) && s.Valid() && s.config == config
    ensures RunsAs(config, before + [Boot(now)] + CallsEvents(calls), s.Mem(), s.disk)
  {
    s := new Supervisor(config, disk, now);
    FollowsStart(config, before, now, calls);
    for i := 0 to |calls|
      invariant fresh(s) && s.Valid() && s.config == config
      invariant Follows(config, before, now, calls[..i], s.Mem(), s.disk)
    {
      FollowsNext(config, before, now, calls, i, s.Mem(), s.disk);
      Handle(s, calls[i]);
    }
    assert calls[..|calls|] == calls;
  }
}
