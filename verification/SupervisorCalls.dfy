/** The calls of a supervisor as steps of a run. What a call makes of memory and state file, and what it adds to the
    log, depends on nothing else of the run before it. */
module SupervisorCalls {
  import opened Common
  import opened Recovery
  import opened RecoveryRuns
  import opened RecoveryPhases

  /** What the world answers during one Reconcile. */
  datatype Answers = Answers(
    status: Option<seq<Session>>, statusError: string, running: bool, save: Save,
    result: Result, later: Time, runningLater: bool, saveLater: Save)

  /** One Reconcile as steps of a run: a failed query, or a tick, and the execution and recording of its action. */
  function ReconcileRun(cfg: Config, s: System, now: Time, a: Answers): (r: System)
    requires Fits(cfg, s)
    ensures Fits(cfg, r)
  {
    if a.status.None? then Steps(cfg, s, [StatusFailed(now)])
    else Steps(cfg, s, [Tick(now, a.status.value, a.save), Execute, Record(a.later, a.result, a.saveLater)])
  }

  /** One StartChild as steps of a run. */
  function StartChildRun(cfg: Config, s: System, now: Time, save: Save, started: bool, saveLater: Save): (r: System)
    requires Fits(cfg, s)
    ensures Fits(cfg, r)
  {
    Steps(cfg, s, [Bootstrap(now, save), RunBootstrap, FinishBootstrap(started, saveLater)])
  }

  lemma TickEffect(cfg: Config, s: System, e: Event)
    requires Fits(cfg, s) && e.Tick? && Enabled(s, e)
    ensures var s1 := Step(cfg, s, e);
      var m := s.process.value.mem;
      var pending := TickPending(cfg, e.now, m, e.sessions);
      && s1.process.Some? && s1.process.value.mem == TickMemory(cfg, e.now, m, e.sessions)
      && s1.disk == Written(cfg, s.disk, s1.process.value.mem, e.save) && s1.clock == e.now
      && s1.process.value.pc == (if Accepted(cfg, e.save) && pending.Some? then Acting(pending.value, e.now) else Idle)
      && s1.log == s.log + if ClearsBudget(cfg, e.now, m, Observed(e.sessions))
                           then [Cleared(e.now, Accepted(cfg, e.save))] else []
  {
  }

  lemma RecordEffect(cfg: Config, s: System, e: Event)
    requires Fits(cfg, s) && e.Record? && s.process.Some? && s.process.value.pc.Acting? && s.clock <= e.now
    requires 0 < s.clock
    ensures Fits(cfg, Step(cfg, s, Execute))
    ensures var r := Step(cfg, Step(cfg, s, Execute), e);
      var x := s.process.value;
      && r.process.Some? && r.process.value.pc.Idle?
      && r.process.value.mem == RecordMemory(x.mem, x.pc.pending, e.result)
      && r.disk == Written(cfg, s.disk, r.process.value.mem, e.save)
      && r.clock == e.now && r.log == s.log + [ExecutedEntry(x)]
  {
    StepFits(cfg, s, Execute);
  }

  /** What a call leaves behind: memory, state file, and the action or bootstrap that ran. */
  datatype Outcome = Outcome(mem: Memory, disk: Option<Persistent>, executed: Option<Pending>)

  /** One Reconcile, told by the rules. */
  function ReconcileOutcome(cfg: Config, now: Time, m: Memory, disk: Option<Persistent>, a: Answers): Outcome
    requires ValidConfig(cfg) && EpisodesFit(cfg, m.episodes)
  {
    if a.status.None? then Outcome(m, disk, None)
    else
      var m1 := TickMemory(cfg, now, m, a.status.value);
      var pending := TickPending(cfg, now, m, a.status.value);
      var disk1 := Written(cfg, disk, m1, a.save);
      PlanFits(cfg, now, m, Observed(a.status.value));
      if !Accepted(cfg, a.save) || pending.None? then Outcome(m1, disk1, None)
      else
        var m2 := RecordMemory(m1, pending.value, a.result);
        Outcome(m2, Written(cfg, disk1, m2, a.saveLater), pending)
  }

  /** What one Reconcile adds to the log: the clearing of the budget, or the action that ran. */
  function ReconcileEntries(cfg: Config, now: Time, m: Memory, a: Answers): seq<Entry>
    requires ValidConfig(cfg) && EpisodesFit(cfg, m.episodes)
  {
    if a.status.None? then []
    else
      var pending := TickPending(cfg, now, m, a.status.value);
      var ok := Accepted(cfg, a.save);
      if ClearsBudget(cfg, now, m, Observed(a.status.value)) then [Cleared(now, ok)]
      else if ok && pending.Some? then
        [ExecutedEntry(Process(TickMemory(cfg, now, m, a.status.value), Acting(pending.value, now), NotOpened))]
      else []
  }

  /** In every state between two calls, whatever its log, clock and history, one Reconcile leads where the rules say. */
  lemma ReconcileResult(cfg: Config, s: System, now: Time, a: Answers)
    requires Fits(cfg, s) && s.process.Some? && s.process.value.pc.Idle? && s.clock <= now && 0 < now <= a.later
    ensures var r := ReconcileRun(cfg, s, now, a);
      var o := ReconcileOutcome(cfg, now, s.process.value.mem, s.disk, a);
      && r.process.Some? && r.process.value.pc.Idle? && r.clock <= a.later
      && r.process.value.mem == o.mem && r.disk == o.disk
      && r.log == s.log + ReconcileEntries(cfg, now, s.process.value.mem, a)
  {
    if a.status.None? {
      OneStep(cfg, s, StatusFailed(now));
    } else {
      var tick := Tick(now, a.status.value, a.save);
      var record := Record(a.later, a.result, a.saveLater);
      PlanFits(cfg, now, s.process.value.mem, Observed(a.status.value));
      ThreeSteps(cfg, s, tick, Execute, record);
      TickEffect(cfg, s, tick);
      if TickPending(cfg, now, s.process.value.mem, a.status.value).Some? {
        PendingNotCleared(cfg, now, s.process.value.mem, Observed(a.status.value));
      }
      var s1 := Step(cfg, s, tick);
      if s1.process.value.pc.Acting? {
        RecordEffect(cfg, s1, record);
      }
    }
  }

  /** One StartChild, told by the rules. */
  function StartChildOutcome(cfg: Config, now: Time, m: Memory, disk: Option<Persistent>, save: Save, started: bool,
                             saveLater: Save): Outcome
    requires ValidConfig(cfg)
  {
    var m1 := m.(bootstrapAttempted := true);
    if m.bootstrapAttempted then Outcome(m, disk, None)
    else if !Accepted(cfg, save) then Outcome(m, Written(cfg, disk, m1, save), None)
    else
      var m2 := BootstrapMemory(cfg, now, m1, ChildHalfOpenDue(cfg, m1.child, now), started);
      Outcome(m2, Written(cfg, Written(cfg, disk, m1, save), m2, saveLater), Some(Pending(None, RecoveryRestartChild)))
  }

  /** With a state file, an action or a bootstrap runs exactly if it is due and the save before it reported success: a
      save that failed after it replaced the file holds it back as well, and leaves the bootstrap to be tried again. */
  lemma RunsIffSaved(cfg: Config, now: Time, m: Memory, disk: Option<Persistent>, a: Answers, started: bool)
    requires ValidConfig(cfg) && EpisodesFit(cfg, m.episodes)
    ensures ReconcileOutcome(cfg, now, m, disk, a).executed
      == if a.status.Some? && (!cfg.persist || a.save == Saved) then TickPending(cfg, now, m, a.status.value) else None
    ensures var o := StartChildOutcome(cfg, now, m, disk, a.save, started, a.saveLater);
      && (o.executed.Some? <==> !m.bootstrapAttempted && (!cfg.persist || a.save == Saved))
      && o.mem.bootstrapAttempted == (m.bootstrapAttempted || o.executed.Some?)
      && (o.executed.None? ==> o.mem == m)
  {
  }

  lemma RecordFits(cfg: Config, m: Memory, pending: Pending, result: Result)
    requires EpisodesFit(cfg, m.episodes) && (pending.pair.Some? ==> pending.pair.value in m.episodes)
    ensures EpisodesFit(cfg, RecordMemory(m, pending, result).episodes)
  {
    RecordKeeps(m, pending, result);
  }

  lemma ReconcileFits(cfg: Config, now: Time, m: Memory, disk: Option<Persistent>, a: Answers)
    requires ValidConfig(cfg) && EpisodesFit(cfg, m.episodes)
    ensures EpisodesFit(cfg, ReconcileOutcome(cfg, now, m, disk, a).mem.episodes)
  {
    if a.status.Some? {
      PlanFits(cfg, now, m, Observed(a.status.value));
      var m1, pending := TickMemory(cfg, now, m, a.status.value), TickPending(cfg, now, m, a.status.value);
      assert EpisodesFit(cfg, m1.episodes);
      if pending.Some? {
        RecordFits(cfg, m1, pending.value, a.result);
      }
    }
  }

  lemma StartChildResult(cfg: Config, s: System, now: Time, save: Save, started: bool, saveLater: Save)
    requires Fits(cfg, s) && s.process.Some? && s.process.value.pc.Idle? && s.clock <= now && 0 < now
    ensures var r := StartChildRun(cfg, s, now, save, started, saveLater);
      var o := StartChildOutcome(cfg, now, s.process.value.mem, s.disk, save, started, saveLater);
      && r.process.Some? && r.process.value.pc.Idle? && r.clock == now
      && r.process.value.mem == o.mem && r.disk == o.disk
      && r.log == s.log + if o.executed.Some? then [Bootstrapped(now)] else []
  {
    var e, g := Bootstrap(now, save), FinishBootstrap(started, saveLater);
    ThreeSteps(cfg, s, e, RunBootstrap, g);
    BootstrapEffect(cfg, s, e);
    var s1 := Step(cfg, s, e);
    if s1.process.value.pc.Starting? {
      FinishEffect(cfg, s1, g);
    }
  }

  lemma BootstrapEffect(cfg: Config, s: System, e: Event)
    requires Fits(cfg, s) && e.Bootstrap? && Enabled(s, e)
    ensures var s1 := Step(cfg, s, e);
      var m := s.process.value.mem;
      var m1 := m.(bootstrapAttempted := true);
      && s1.process.Some? && s1.clock == e.now && s1.log == s.log
      && if m.bootstrapAttempted || !Accepted(cfg, e.save) then
           && s1.process.value.mem == m && s1.process.value.pc.Idle?
           && s1.disk == if m.bootstrapAttempted then s.disk else Written(cfg, s.disk, m1, e.save)
         else
           && s1.process.value.mem == m1 && s1.disk == Written(cfg, s.disk, m1, e.save)
           && s1.process.value.pc == Starting(e.now, ChildHalfOpenDue(cfg, m1.child, e.now))
  {
  }

  lemma FinishEffect(cfg: Config, s: System, e: Event)
    requires Fits(cfg, s) && e.FinishBootstrap? && s.process.Some? && s.process.value.pc.Starting? && 0 < s.clock
    ensures Fits(cfg, Step(cfg, s, RunBootstrap))
    ensures var r := Step(cfg, Step(cfg, s, RunBootstrap), e);
      var x := s.process.value;
      && r.process.Some? && r.process.value.pc.Idle? && r.clock == s.clock
      && r.process.value.mem == BootstrapMemory(cfg, x.pc.at, x.mem, x.pc.halfOpen, e.started)
      && r.disk == Written(cfg, s.disk, r.process.value.mem, e.save)
      && r.log == s.log + [Bootstrapped(x.pc.at)]
  {
    StepFits(cfg, s, RunBootstrap);
  }

  // ----- sequences of calls

  datatype Call =
    | Reconciling(now: Time, answers: Answers)
    | StartingChild(now: Time, save: Save, started: bool, running: bool, saveLater: Save)

  /** The events of a run that a call stands for. */
  function CallEvents(c: Call): seq<Event> {
    match c
    case Reconciling(now, a) =>
      if a.status.None? then [StatusFailed(now)]
      else [Tick(now, a.status.value, a.save), Execute, Record(a.later, a.result, a.saveLater)]
    case StartingChild(now, save, started, _, saveLater) =>
      [Bootstrap(now, save), RunBootstrap, FinishBootstrap(started, saveLater)]
  }

  function CallsEvents(calls: seq<Call>): seq<Event> {
    if calls == [] then [] else CallsEvents(calls[..|calls| - 1]) + CallEvents(calls[|calls| - 1])
  }

  function CallEnd(c: Call): Time {
    if c.Reconciling? then c.answers.later else c.now
  }

  /** The calls come one after the other, on a clock that does not go back. */
  predicate InOrder(clock: Time, calls: seq<Call>) {
    forall i :: 0 <= i < |calls| ==>
      && 0 < calls[i].now <= CallEnd(calls[i])
      && (if i == 0 then clock else CallEnd(calls[i - 1])) <= calls[i].now
  }

  function CallOutcome(cfg: Config, m: Memory, disk: Option<Persistent>, c: Call): Outcome
    requires ValidConfig(cfg) && EpisodesFit(cfg, m.episodes)
  {
    match c
    case Reconciling(now, a) => ReconcileOutcome(cfg, now, m, disk, a)
    case StartingChild(now, save, started, _, saveLater) =>
      StartChildOutcome(cfg, now, m, disk, save, started, saveLater)
  }

  lemma CallResult(cfg: Config, s: System, c: Call)
    requires Fits(cfg, s) && s.process.Some? && s.process.value.pc.Idle? && s.clock <= c.now && 0 < c.now <= CallEnd(c)
    ensures var r := Steps(cfg, s, CallEvents(c));
      var o := CallOutcome(cfg, s.process.value.mem, s.disk, c);
      && r.process.Some? && r.process.value.pc.Idle? && r.clock <= CallEnd(c)
      && r.process.value.mem == o.mem && r.disk == o.disk && s.log <= r.log
  {
    match c
    case Reconciling(now, a) => ReconcileResult(cfg, s, now, a);
    case StartingChild(now, save, started, _, saveLater) => StartChildResult(cfg, s, now, save, started, saveLater);
  }

  /** A call made after any run, between two calls, extends it to a run. */
  lemma CallExtendsRun(cfg: Config, events: seq<Event>, c: Call)
    requires ValidConfig(cfg) && Run(cfg, events).process.Some? && Run(cfg, events).process.value.pc.Idle?
    requires Run(cfg, events).clock <= c.now && 0 < c.now <= CallEnd(c)
    ensures var s, r := Run(cfg, events), Run(cfg, events + CallEvents(c));
      var o := CallOutcome(cfg, s.process.value.mem, s.disk, c);
      && r.process.Some? && r.process.value.pc.Idle? && r.clock <= CallEnd(c)
      && r.process.value.mem == o.mem && r.disk == o.disk && s.log <= r.log
  {
    CallResult(cfg, Run(cfg, events), c);
    RunSteps(cfg, events, CallEvents(c));
  }

  /** The run ends between two calls of a process with this memory, over this state file. */
  ghost predicate RunsAs(cfg: Config, events: seq<Event>, m: Memory, disk: Option<Persistent>)
    requires ValidConfig(cfg)
  {
    var r := Run(cfg, events);
    r.process.Some? && r.process.value.pc.Idle? && r.process.value.mem == m && r.disk == disk
  }

  /** The run that boots after `before` and goes through the calls ends in that way, no later than the last call. */
  ghost predicate Follows(cfg: Config, before: seq<Event>, now: Time, calls: seq<Call>, m: Memory,
                          disk: Option<Persistent>)
    requires ValidConfig(cfg)
  {
    var events := before + [Boot(now)] + CallsEvents(calls);
    && RunsAs(cfg, events, m, disk)
    && Run(cfg, events).clock <= if calls == [] then now else CallEnd(calls[|calls| - 1])
  }

  lemma FollowsStart(cfg: Config, before: seq<Event>, now: Time, calls: seq<Call>)
    requires ValidConfig(cfg) && Run(cfg, before).process.None? && Run(cfg, before).clock <= now && 0 < now
    ensures Follows(cfg, before, now, calls[..0], Load(cfg, now, Run(cfg, before).disk), Run(cfg, before).disk)
  {
    RunAppend(cfg, before, Boot(now));
    assert before + [Boot(now)] + CallsEvents([]) == before + [Boot(now)];
  }

  lemma FollowsNext(cfg: Config, before: seq<Event>, now: Time, calls: seq<Call>, i: nat, m: Memory,
                    disk: Option<Persistent>)
    requires ValidConfig(cfg) && i < |calls| && InOrder(now, calls) && Follows(cfg, before, now, calls[..i], m, disk)
    requires EpisodesFit(cfg, m.episodes)
    ensures var o := CallOutcome(cfg, m, disk, calls[i]); Follows(cfg, before, now, calls[..i + 1], o.mem, o.disk)
  {
    var events := before + [Boot(now)] + CallsEvents(calls[..i]);
    assert calls[..i + 1][..i] == calls[..i];
    assert (if i == 0 then now else CallEnd(calls[i - 1])) <= calls[i].now;
    assert |calls[..i]| == i && (i > 0 ==> calls[..i] != [] && calls[..i][|calls[..i]| - 1] == calls[i - 1]);
    assert before + [Boot(now)] + CallsEvents(calls[..i + 1]) == events + CallEvents(calls[i]);
    CallExtendsRun(cfg, events, calls[i]);
  }

  /** The report of one Reconcile that leaves the memory m'. */
  function ReconcileStatus(cfg: Config, now: Time, m: Memory, before: Status, a: Answers,
                           executed: Option<Pending>, m': Memory): Status
    requires ValidConfig(cfg) && Covers(cfg, m.episodes) && Covers(cfg, m'.episodes)
  {
    if a.status.None? then FailureStatus(cfg, now, m, before, a.statusError, a.running)
    else
      var tick := TickStatus(cfg, now, m, a.status.value, a.running);
      if executed.None? then tick
      else RecordStatus(cfg, a.later, m', tick, executed.value, a.result, a.runningLater)
  }
}
