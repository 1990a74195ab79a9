/** What a bootstrap does to the child's restart budget, and what that holds off. */
module BootstrapBudget {
  import opened Common
  import opened Recovery
  import opened RecoveryRuns
  import opened RecoveryPhases
  import opened RecoveryPacing
  import opened ChildBudget

  /** In every run, what the end of a bootstrap does to the budget. A successful half-open one counts as a restart
      past the ladder: one more attempt, and a circuit interval from its start, which is noted as inherited. Any other
      successful one leaves the budget alone. A failed one outside the child's window counts as a restart on the
      ladder. */
  lemma BootstrapCounts(cfg: Config, before: seq<Event>, started: bool, save: Save)
    requires ValidConfig(cfg) && Enabled(Run(cfg, before), FinishBootstrap(started, save))
    ensures var x := Run(cfg, before).process.value;
      var x' := Step(cfg, Run(cfg, before), FinishBootstrap(started, save)).process.value;
      var c, c', at := x.mem.child, x'.mem.child, x.pc.at;
      var k := c.attempts + 1;
      if started && x.pc.halfOpen then
        c' == Child(k, at + cfg.circuitOpen, at + cfg.circuitOpen) && x'.mem.inheritedUntil == at + cfg.circuitOpen
      else if started || (c.nextRetry != 0 && at < c.nextRetry) then
        c' == c && x'.mem.inheritedUntil == x.mem.inheritedUntil
      else
        && x'.mem.inheritedUntil == x.mem.inheritedUntil
        && c' == if k > |cfg.childBackoffs| then Child(k, at + cfg.circuitOpen, at + cfg.circuitOpen)
                 else Child(k, at + cfg.childBackoffs[k - 1], 0)
  {
    RunOk(cfg, before);
  }

  /** A bootstrap is half-open exactly if the budget is past the ladder and its last window was over when it began. */
  lemma HalfOpenMeansPastLadder(cfg: Config, before: seq<Event>)
    requires ValidConfig(cfg) && Run(cfg, before).process.Some?
    requires Run(cfg, before).process.value.pc.Starting? || Run(cfg, before).process.value.pc.Started?
    ensures var x := Run(cfg, before).process.value;
      x.pc.halfOpen <==> x.mem.child.attempts > |cfg.childBackoffs| && x.mem.child.nextRetry <= x.pc.at
  {
    RunOk(cfg, before);
  }

  /** The budget waits at least until a time. */
  ghost function WaitsUntil(until: Time): ChildProperty {
    (now: Time, c: Child) => until <= c.nextRetry
  }

  /** While the budget is not cleared, it goes on waiting until then, in memory and, if it was filed, in the state
      file. */
  ghost predicate Holding(s: System, until: Time, filed: bool) {
    && ChildInMemory(s, WaitsUntil(until)) && (filed ==> ChildOnDisk(s, WaitsUntil(until)))
    && (s.process.Some? && s.process.value.pc.Acting? && IsRestart(Some(s.process.value.pc.pending)) ==>
          until <= s.process.value.pc.at)
  }

  lemma WaitsKept(cfg: Config, until: Time)
    requires ValidConfig(cfg) && until > 0
    ensures ReserveKeeps(cfg, WaitsUntil(until))
  {
  }

  lemma HoldingStep(cfg: Config, s: System, e: Event, until: Time, filed: bool)
    requires Fits(cfg, s) && SystemOk(cfg, s) && Holding(s, until, filed) && until > 0 && !Clears(cfg, s, e)
    requires e.Boot? && Enabled(s, e) ==> cfg.persist && filed
    ensures Holding(Step(cfg, s, e), until, filed)
  {
    WaitsKept(cfg, until);
    StepKeepsChild(cfg, s, e, WaitsUntil(until));
    if e.Tick? && Enabled(s, e) {
      PlanChild(cfg, e.now, s.process.value.mem, Observed(e.sessions));
    }
  }

  /** From entry `from` to entry j of the log the budget is not cleared, and no new process starts without its file. */
  predicate Undisturbed(log: seq<Entry>, from: nat, j: nat, filed: bool) {
    forall k :: from <= k < j && k < |log| ==> !log[k].Cleared? && (filed || !log[k].Booted?)
  }

  /** What one step adds to the log. */
  lemma StepEntry(cfg: Config, s: System, e: Event)
    requires Fits(cfg, s)
    ensures var s' := Step(cfg, s, e);
      && s.log <= s'.log && |s'.log| <= |s.log| + 1
      && (Clears(cfg, s, e) ==> |s'.log| == |s.log| + 1 && s'.log[|s.log|].Cleared?)
      && (e.Boot? && Enabled(s, e) ==> |s'.log| == |s.log| + 1 && s'.log[|s.log|].Booted?)
      && (OnChild(s'.log, |s.log|) ==>
            && s.process.Some? && s.process.value.pc.Acting? && IsRestart(Some(s.process.value.pc.pending))
            && s'.log[|s.log|].at == s.process.value.pc.at)
  {
  }

  lemma {:induction false} StepsLog(cfg: Config, s: System, events: seq<Event>)
    requires Fits(cfg, s)
    ensures s.log <= Steps(cfg, s, events).log
    decreases |events|
  {
    if events != [] {
      StepFits(cfg, s, events[0]);
      StepEntry(cfg, s, events[0]);
      StepsLog(cfg, Step(cfg, s, events[0]), events[1..]);
    }
  }

  lemma {:induction false} HoldsOffRestarts(cfg: Config, s: System, events: seq<Event>, until: Time, filed: bool,
                                            j: nat)
    requires Fits(cfg, s) && SystemOk(cfg, s) && Holding(s, until, filed) && until > 0 && (filed ==> cfg.persist)
    requires var log := Steps(cfg, s, events).log; |s.log| <= j && OnChild(log, j) && Undisturbed(log, |s.log|, j,
                                                                                                  filed)
    ensures until <= Steps(cfg, s, events).log[j].at
    decreases |events|
  {
    var log := Steps(cfg, s, events).log;
    if events != [] {
      var e := events[0];
      var s' := Step(cfg, s, e);
      StepFits(cfg, s, e);
      StepOk(cfg, s, e);
      StepEntry(cfg, s, e);
      StepsLog(cfg, s', events[1..]);
      assert |s.log| < |s'.log| ==> log[|s.log|] == s'.log[|s.log|];
      if j >= |s'.log| {
        HoldingStep(cfg, s, e, until, filed);
        HoldsOffRestarts(cfg, s', events[1..], until, filed, j);
      }
    }
  }

  /** After a successful half-open bootstrap, with no clearing between and the budget kept by the same process or by the
      state file, Reconcile restarts the child no earlier than a circuit interval after the bootstrap began. */
  lemma RenewalHoldsOffRestarts(cfg: Config, before: seq<Event>, save: Save, events: seq<Event>, j: nat)
    requires ValidConfig(cfg) && Enabled(Run(cfg, before), FinishBootstrap(true, save))
    requires Run(cfg, before).process.value.pc.halfOpen
    requires var log := Run(cfg, before + [FinishBootstrap(true, save)] + events).log;
      && |Run(cfg, before).log| <= j && OnChild(log, j)
      && Undisturbed(log, |Run(cfg, before).log|, j, cfg.persist && save != Lost)
    ensures var log := Run(cfg, before + [FinishBootstrap(true, save)] + events).log;
      Run(cfg, before).process.value.pc.at + cfg.circuitOpen <= log[j].at
  {
    var e := FinishBootstrap(true, save);
    BootstrapCounts(cfg, before, true, save);
    RunAppend(cfg, before, e);
    RunOk(cfg, before + [e]);
    RunSteps(cfg, before + [e], events);
    var s := Run(cfg, before + [e]);
    assert s.log == Run(cfg, before).log;
    HoldsOffRestarts(cfg, s, events, Run(cfg, before).process.value.pc.at + cfg.circuitOpen,
                     cfg.persist && save != Lost, j);
  }

  // ----- how many restarts succeeded

  /** The recording of a child restart by Reconcile that succeeded. */
  predicate RestartSucceeds(s: System, e: Event) {
    && e.Record? && Enabled(s, e) && s.process.value.pc.pending.action == RecoveryRestartChild
    && e.result == Success
  }

  function Succeeded(cfg: Config, s: System, events: seq<Event>): nat
    requires Fits(cfg, s)
    decreases |events|
  {
    if events == [] then 0
    else
      StepFits(cfg, s, events[0]);
      Succeeded(cfg, Step(cfg, s, events[0]), events[1..]) + if RestartSucceeds(s, events[0]) then 1 else 0
  }

  predicate CrashFree(events: seq<Event>) {
    forall i :: 0 <= i < |events| ==> !events[i].Crash?
  }

  lemma RestartsStep(cfg: Config, s: System, e: Event)
    requires Fits(cfg, s) && s.process.Some? && !e.Crash?
    ensures var s' := Step(cfg, s, e);
      && s'.process.Some?
      && s'.process.value.mem.childRestarts
         == s.process.value.mem.childRestarts + if RestartSucceeds(s, e) then 1 else 0
  {
  }

  lemma {:induction false} RestartsSteps(cfg: Config, s: System, events: seq<Event>)
    requires Fits(cfg, s) && s.process.Some? && CrashFree(events)
    ensures var s' := Steps(cfg, s, events);
      && s'.process.Some?
      && s'.process.value.mem.childRestarts == s.process.value.mem.childRestarts + Succeeded(cfg, s, events)
    decreases |events|
  {
    if events != [] {
      StepFits(cfg, s, events[0]);
      RestartsStep(cfg, s, events[0]);
      RestartsSteps(cfg, Step(cfg, s, events[0]), events[1..]);
    }
  }

  /** The restart count of a process is what it loaded and the number of restarts by Reconcile that succeeded since:
      failed ones, other actions and bootstraps do not count. */
  lemma RestartsAreCounted(cfg: Config, before: seq<Event>, now: Time, events: seq<Event>)
    requires ValidConfig(cfg) && Enabled(Run(cfg, before), Boot(now)) && CrashFree(events)
    ensures var s, s' := Run(cfg, before + [Boot(now)]), Run(cfg, before + [Boot(now)] + events);
      && s'.process.Some?
      && s'.process.value.mem.childRestarts
         == (if cfg.persist && Run(cfg, before).disk.Some? then Run(cfg, before).disk.value.childRestarts else 0)
            + Succeeded(cfg, s, events)
  {
    RunAppend(cfg, before, Boot(now));
    RunSteps(cfg, before + [Boot(now)], events);
    RestartsSteps(cfg, Run(cfg, before + [Boot(now)]), events);
  }
}
