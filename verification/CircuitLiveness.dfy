/** Which child circuits fail the supervisor's liveness. */
module CircuitLiveness {
  import opened Common
  import opened Recovery
  import opened RecoveryRuns
  import opened RecoveryPhases
  import opened ChildBudget

  /** The inherited deadline against the history of the circuit. */
  predicate OriginOk(clock: Time, x: Process) {
    var m := x.mem;
    && (m.inheritedUntil != 0 ==> m.inheritedUntil <= m.child.nextRetry)
    && match x.origin
       case NotOpened => !ChildCircuitOpen(m.child, clock)
       case Inherited => m.child.circuitUntil != 0 && m.inheritedUntil == m.child.circuitUntil
       case Renewed => m.child.circuitUntil != 0 && m.inheritedUntil == m.child.circuitUntil
       case OpenedHere => m.inheritedUntil != m.child.circuitUntil
  }

  ghost predicate OriginInv(s: System) {
    s.process.Some? ==> OriginOk(s.clock, s.process.value)
  }

  lemma TickKeepsOrigin(cfg: Config, s: System, e: Event)
    requires Fits(cfg, s) && SystemOk(cfg, s) && OriginInv(s) && e.Tick? && Enabled(s, e)
    ensures OriginInv(TickStep(cfg, s, e))
  {
    var m := s.process.value.mem;
    var observed := Observed(e.sessions);
    PlanChild(cfg, e.now, m, observed);
    var plan := Plan(cfg, e.now, m, observed);
    var m' := TickMemory(cfg, e.now, m, e.sessions);
    if plan.pending.Some? {
      PendingNotCleared(cfg, e.now, m, observed);
      ReserveOk(cfg, m.child, e.now);
      assert m'.inheritedUntil == m.inheritedUntil && m'.child == plan.child;
    }
  }

  lemma FinishKeepsOrigin(cfg: Config, s: System, e: Event)
    requires Fits(cfg, s) && SystemOk(cfg, s) && OriginInv(s) && e.FinishBootstrap? && Enabled(s, e)
    ensures OriginInv(FinishStep(cfg, s, e))
  {
    var x := s.process.value;
    ReserveOk(cfg, x.mem.child, x.pc.at);
  }

  lemma StepKeepsOrigin(cfg: Config, s: System, e: Event)
    requires Fits(cfg, s) && SystemOk(cfg, s) && OriginInv(s)
    ensures OriginInv(Step(cfg, s, e))
  {
    if Enabled(s, e) {
      match e
      case Boot(_) =>
      case Tick(_, _, _) => TickKeepsOrigin(cfg, s, e);
      case StatusFailed(_) =>
      case Execute =>
      case Record(_, _, _) =>
      case Bootstrap(_, _) =>
      case RunBootstrap =>
      case FinishBootstrap(_, _) => FinishKeepsOrigin(cfg, s, e);
      case Crash =>
    }
  }

  lemma {:induction false} RunKeepsOrigin(cfg: Config, events: seq<Event>)
    requires ValidConfig(cfg)
    ensures OriginInv(Run(cfg, events))
  {
    if events != [] {
      var s := Run(cfg, events[..|events| - 1]);
      RunOk(cfg, events[..|events| - 1]);
      RunKeepsOrigin(cfg, events[..|events| - 1]);
      StepKeepsOrigin(cfg, s, events[|events| - 1]);
    }
  }

  /** In every reachable state, the child's circuit fails liveness exactly when it is open and this very process opened
      it, in Reconcile or after a failed bootstrap. One that was open when the process booted, or that a successful
      half-open bootstrap renewed, never does. */
  lemma OnlyOwnCircuitFailsLiveness(cfg: Config, events: seq<Event>, now: Time)
    requires ValidConfig(cfg) && Run(cfg, events).process.Some? && Run(cfg, events).clock <= now
    ensures var x := Run(cfg, events).process.value;
      CircuitFailsLiveness(x.mem, now) <==> ChildCircuitOpen(x.mem.child, now) && x.origin == OpenedHere
  {
    RunKeepsOrigin(cfg, events);
  }

  /** What a tick with a readable status reports as live. */
  lemma LiveAfterTick(cfg: Config, events: seq<Event>, e: Event, running: bool)
    requires ValidConfig(cfg) && e.Tick? && Enabled(Run(cfg, events), e)
    ensures var x := Step(cfg, Run(cfg, events), e).process.value;
      TickStatus(cfg, e.now, Run(cfg, events).process.value.mem, e.sessions, running).live
      <==> running && !(ChildCircuitOpen(x.mem.child, e.now) && x.origin == OpenedHere)
  {
    assert Run(cfg, events + [e]) == Step(cfg, Run(cfg, events), e) by {
      assert (events + [e])[..|events|] == events;
    }
    OnlyOwnCircuitFailsLiveness(cfg, events + [e], e.now);
  }

  /** What a tick whose status query failed reports as live: a child that is stopped is tolerated while its restart
      window lasts, and a circuit of this process never is. */
  lemma LiveAfterFailedQuery(cfg: Config, events: seq<Event>, now: Time, before: Status, error: string, running: bool)
    requires ValidConfig(cfg) && Run(cfg, events).process.Some? && Run(cfg, events).clock <= now
    ensures var x := Run(cfg, events).process.value;
      FailureStatus(cfg, now, x.mem, before, error, running).live
      <==> !(ChildCircuitOpen(x.mem.child, now) && x.origin == OpenedHere) && (running || now < x.mem.child.nextRetry)
  {
    OnlyOwnCircuitFailsLiveness(cfg, events, now);
  }

  /** A deadline set by this process lies strictly after the one it inherited. */
  lemma NewDeadlineIsLater(cfg: Config, events: seq<Event>, e: Event)
    requires ValidConfig(cfg) && Enabled(Run(cfg, events), e) && !e.Crash? && !e.Boot?
    ensures var before := Run(cfg, events).process.value.mem;
      var after := Step(cfg, Run(cfg, events), e).process.value.mem;
      after.child.circuitUntil != 0 && after.child.circuitUntil != before.child.circuitUntil ==>
        before.inheritedUntil < after.child.circuitUntil && before.child.circuitUntil < after.child.circuitUntil
  {
    RunOk(cfg, events);
    RunKeepsOrigin(cfg, events);
    var s := Run(cfg, events);
    if e.Tick? {
      PlanChild(cfg, e.now, s.process.value.mem, Observed(e.sessions));
    }
  }
}
