/** What the supervisor reports after a call, against the run that the call belongs to. */
module RecoveryReports {
  import opened Common
  import opened Recovery
  import opened RecoveryRuns
  import opened SupervisorCalls
  import opened CircuitLiveness

  /** A circuit that this very process opened is open. */
  predicate OwnCircuitOpen(x: Process, now: Time) {
    x.origin == OpenedHere && x.mem.child.circuitUntil != 0 && now < x.mem.child.circuitUntil
  }

  /** The sessions are the episodes of the expected pairs, in their order, and the child's figures are those of the
      memory; the circuit is told as open exactly while it is, at that time. */
  predicate Tells(cfg: Config, status: Status, m: Memory, now: Time) {
    && |status.sessions| == |cfg.expected|
    && (forall i :: 0 <= i < |cfg.expected| ==>
          cfg.expected[i] in m.episodes && status.sessions[i] == m.episodes[cfg.expected[i]])
    && status.childRestarts == m.childRestarts && status.childAttempts == m.child.attempts
    && status.childNextRetry == m.child.nextRetry
    && (status.childCircuitOpen <==> m.child.circuitUntil != 0 && now < m.child.circuitUntil)
  }

  /** When a Reconcile makes its last report. */
  function ReportTime(now: Time, a: Answers, executed: Option<Pending>): Time {
    if executed.Some? then a.later else now
  }

  /** The report of a Reconcile that leaves the memory m and executed that action, with `own` for an open circuit of
      this process. It tells the memory. A stopped child is live only while a failed restart is waited for: one of
      this call, or an earlier one whose window lasts when the query fails. */
  predicate Reports(cfg: Config, before: Status, now: Time, a: Answers, executed: Option<Pending>, m: Memory, own: bool,
                    status: Status) {
    && Tells(cfg, status, m, ReportTime(now, a, executed))
    && if a.status.None? then
         && !status.ready && status.controlFailures == before.controlFailures + 1
         && status.lastControlError == a.statusError
         && (status.live <==> (a.running || now < m.child.nextRetry) && !own)
       else
         && status.controlFailures == 0 && status.lastControlError == ""
         && (status.live <==>
               && !own
               && if executed.None? then a.running
                  else a.runningLater || (executed.value.action == RecoveryRestartChild && a.result != Success))
  }

  lemma ReportTells(cfg: Config, m: Memory, clock: Time, live: bool, ready: bool, failures: nat, error: string)
    requires Covers(cfg, m.episodes)
    ensures var status := Report(cfg, m, clock, live, ready, failures, error);
      && Tells(cfg, status, m, clock) && status.live == live && status.ready == ready
      && status.controlFailures == failures && status.lastControlError == error
  {
  }

  lemma FailureReports(cfg: Config, now: Time, m: Memory, before: Status, a: Answers)
    requires Covers(cfg, m.episodes) && a.status.None?
    ensures Reports(cfg, before, now, a, None, m, CircuitFailsLiveness(m, now),
                    FailureStatus(cfg, now, m, before, a.statusError, a.running))
  {
    ReportTells(cfg, m, now, !CircuitFailsLiveness(m, now) && (a.running || ChildWaiting(m.child, now)), false,
                before.controlFailures + 1, a.statusError);
  }

  lemma TickReports(cfg: Config, now: Time, m: Memory, before: Status, a: Answers)
    requires ValidConfig(cfg) && Covers(cfg, m.episodes) && a.status.Some?
    ensures var m' := TickMemory(cfg, now, m, a.status.value);
      Reports(cfg, before, now, a, None, m', CircuitFailsLiveness(m', now),
              TickStatus(cfg, now, m, a.status.value, a.running))
  {
    var m' := TickMemory(cfg, now, m, a.status.value);
    ReportTells(cfg, m', now, a.running && !CircuitFailsLiveness(m', now),
                Plan(cfg, now, m, Observed(a.status.value)).ready, 0, "");
  }

  lemma RecordReports(cfg: Config, now: Time, m: Memory, before: Status, tick: Status, a: Answers, pending: Pending)
    requires Covers(cfg, m.episodes) && a.status.Some? && tick.controlFailures == 0 && tick.lastControlError == ""
    ensures Reports(cfg, before, now, a, Some(pending), m, CircuitFailsLiveness(m, a.later),
                    RecordStatus(cfg, a.later, m, tick, pending, a.result, a.runningLater))
  {
    var up := a.runningLater || (pending.action == RecoveryRestartChild && a.result != Success);
    ReportTells(cfg, m, a.later, up && !CircuitFailsLiveness(m, a.later), tick.ready, 0, "");
  }

  lemma OutcomeReports(cfg: Config, now: Time, m: Memory, disk: Option<Persistent>, before: Status, a: Answers)
    requires ValidConfig(cfg) && EpisodesFit(cfg, m.episodes)
    ensures var o := ReconcileOutcome(cfg, now, m, disk, a);
      && EpisodesFit(cfg, o.mem.episodes)
      && Reports(cfg, before, now, a, o.executed, o.mem,
                 CircuitFailsLiveness(o.mem, ReportTime(now, a, o.executed)),
                 ReconcileStatus(cfg, now, m, before, a, o.executed, o.mem))
  {
    ReconcileFits(cfg, now, m, disk, a);
    var o := ReconcileOutcome(cfg, now, m, disk, a);
    if a.status.None? {
      FailureReports(cfg, now, m, before, a);
    } else {
      TickReports(cfg, now, m, before, a);
      if o.executed.Some? {
        RecordReports(cfg, now, o.mem, before, TickStatus(cfg, now, m, a.status.value, a.running), a, o.executed.value);
      }
    }
  }

  /** What a Reconcile made after any run reports, where a circuit fails liveness exactly if this process opened it. */
  lemma ReconcileReports(cfg: Config, events: seq<Event>, now: Time, a: Answers, before: Status)
    requires ValidConfig(cfg) && Run(cfg, events).process.Some? && Run(cfg, events).process.value.pc.Idle?
    requires Run(cfg, events).clock <= now && 0 < now <= a.later
    ensures var s, r := Run(cfg, events), Run(cfg, events + CallEvents(Reconciling(now, a)));
      var o := ReconcileOutcome(cfg, now, s.process.value.mem, s.disk, a);
      && EpisodesFit(cfg, o.mem.episodes) && r.process.Some? && r.process.value.mem == o.mem
      && Reports(cfg, before, now, a, o.executed, o.mem,
                 OwnCircuitOpen(r.process.value, ReportTime(now, a, o.executed)),
                 ReconcileStatus(cfg, now, s.process.value.mem, before, a, o.executed, o.mem))
  {
    var s := Run(cfg, events);
    OutcomeReports(cfg, now, s.process.value.mem, s.disk, before, a);
    CallExtendsRun(cfg, events, Reconciling(now, a));
    EndsAtReport(cfg, events, now, a);
    OwnCircuit(cfg, events + CallEvents(Reconciling(now, a)),
               ReportTime(now, a, ReconcileOutcome(cfg, now, s.process.value.mem, s.disk, a).executed));
  }

  lemma OwnCircuit(cfg: Config, events: seq<Event>, now: Time)
    requires ValidConfig(cfg) && Run(cfg, events).process.Some? && Run(cfg, events).clock <= now
    ensures var x := Run(cfg, events).process.value; CircuitFailsLiveness(x.mem, now) <==> OwnCircuitOpen(x, now)
  {
    OnlyOwnCircuitFailsLiveness(cfg, events, now);
  }

  /** The call ends no later than its last report. */
  lemma EndsAtReport(cfg: Config, events: seq<Event>, now: Time, a: Answers)
    requires ValidConfig(cfg) && Run(cfg, events).process.Some? && Run(cfg, events).process.value.pc.Idle?
    requires Run(cfg, events).clock <= now && 0 < now <= a.later
    ensures var s := Run(cfg, events);
      var o := ReconcileOutcome(cfg, now, s.process.value.mem, s.disk, a);
      Run(cfg, events + CallEvents(Reconciling(now, a))).clock <= ReportTime(now, a, o.executed)
  {
    var s, c := Run(cfg, events), Reconciling(now, a);
    CallExtendsRun(cfg, events, c);
    RunSteps(cfg, events, CallEvents(c));
    if a.status.None? {
      OneStep(cfg, s, StatusFailed(now));
    } else {
      var tick := Tick(now, a.status.value, a.save);
      ThreeSteps(cfg, s, tick, Execute, Record(a.later, a.result, a.saveLater));
      TickEffect(cfg, s, tick);
    }
  }

  /** The report of a StartChild made after any run, if it restarts the child: not ready, and live if the child runs or
      the restart failed, unless a circuit that this process opened is open. */
  lemma StartChildReports(cfg: Config, events: seq<Event>, c: Call, before: Status)
    requires ValidConfig(cfg) && Run(cfg, events).process.Some? && Run(cfg, events).process.value.pc.Idle?
    requires c.StartingChild? && Run(cfg, events).clock <= c.now && 0 < c.now
    ensures var r := Run(cfg, events + CallEvents(c));
      && r.process.Some? && Covers(cfg, r.process.value.mem.episodes)
      && var x := r.process.value;
         var status := BootstrapStatus(cfg, c.now, x.mem, before, c.started, c.running);
         && Tells(cfg, status, x.mem, c.now) && !status.ready
         && status.controlFailures == before.controlFailures && status.lastControlError == before.lastControlError
         && (status.live <==> (c.running || !c.started) && !OwnCircuitOpen(x, c.now))
  {
    CallExtendsRun(cfg, events, c);
    OwnCircuit(cfg, events + CallEvents(c), c.now);
  }
}
