/** The restart budget that all sessions share, across failing saves, crashes and reloads. */
module ChildBudget {
  import opened Common
  import opened Recovery
  import opened RecoveryRuns
  import opened RecoveryPhases
  import opened RecoveryPacing

  // ----- properties of the budget that every step keeps until the budget is cleared

  type ChildProperty = (Time, Child) -> bool

  ghost predicate ReserveKeeps(cfg: Config, R: ChildProperty)
    requires ValidConfig(cfg)
  {
    && (forall t, t', c :: t <= t' && R(t, c) ==> R(t', c))
    && (forall t, c :: t > 0 && R(t, c) && !ChildWaiting(c, t) ==> R(t, Reserve(cfg, c, t)))
  }

  ghost predicate ChildInMemory(s: System, R: ChildProperty) {
    s.process.Some? ==> R(s.clock, s.process.value.mem.child)
  }

  ghost predicate ChildOnDisk(s: System, R: ChildProperty) {
    s.disk.Some? && R(s.clock, s.disk.value.child)
  }

  predicate IsRestart(pending: Option<Pending>) {
    pending.Some? && pending.value.action == RecoveryRestartChild
  }

  /** A tick touches the budget only to reserve the restart it chose, and only outside a waiting window. */
  lemma PlanChild(cfg: Config, now: Time, m: Memory, observed: map<Pair, SessionState>)
    requires ValidConfig(cfg) && Covers(cfg, m.episodes)
    ensures var s := Plan(cfg, now, m, observed);
      if IsRestart(s.pending) then !ChildWaiting(m.child, now) && s.child == Reserve(cfg, m.child, now)
      else s.child == m.child
  {
    var P := (p: Pair, e: Episode) => true;
    var c := PlanKeepsEach(cfg, now, m, observed, P);
    var s := Plan(cfg, now, m, observed);
    if s.pending.Some? && s.pending.value.pair.Some? {
      ChosenIsDue(cfg, now, s.pending.value.pair.value, c.before, m.child, c.seen, AllUnhealthy(cfg, observed));
    }
  }

  predicate Clears(cfg: Config, s: System, e: Event)
    requires Fits(cfg, s)
  {
    e.Tick? && Enabled(s, e) && ClearsBudget(cfg, e.now, s.process.value.mem, Observed(e.sessions))
  }

  lemma TickKeepsChild(cfg: Config, s: System, e: Event, R: ChildProperty)
    requires Fits(cfg, s) && ReserveKeeps(cfg, R) && ChildInMemory(s, R)
    requires e.Tick? && Enabled(s, e) && !Clears(cfg, s, e)
    ensures ChildInMemory(TickStep(cfg, s, e), R)
    ensures ChildOnDisk(s, R) ==> ChildOnDisk(TickStep(cfg, s, e), R)
  {
    var m := s.process.value.mem;
    PlanChild(cfg, e.now, m, Observed(e.sessions));
    assert R(e.now, m.child);
  }

  lemma FinishKeepsChild(cfg: Config, s: System, e: Event, R: ChildProperty)
    requires Fits(cfg, s) && SystemOk(cfg, s) && ReserveKeeps(cfg, R) && ChildInMemory(s, R)
    requires e.FinishBootstrap? && Enabled(s, e)
    ensures ChildInMemory(FinishStep(cfg, s, e), R)
    ensures ChildOnDisk(s, R) ==> ChildOnDisk(FinishStep(cfg, s, e), R)
  {
    var x := s.process.value;
    var m := BootstrapMemory(cfg, x.pc.at, x.mem, x.pc.halfOpen, e.started);
    assert m.child == x.mem.child
           || (!ChildWaiting(x.mem.child, s.clock) && m.child == Reserve(cfg, x.mem.child, s.clock));
  }

  lemma StepChild(cfg: Config, s: System, e: Event)
    requires Fits(cfg, s) && Enabled(s, e) && !e.Tick? && !e.FinishBootstrap?
    ensures var s' := Step(cfg, s, e);
      && s'.clock == EventTime(s, e)
      && (s'.process.Some? && s.process.Some? ==> s'.process.value.mem.child == s.process.value.mem.child)
      && (s'.process.Some? && s.process.None? && cfg.persist && s.disk.Some? ==>
          s'.process.value.mem.child == s.disk.value.child)
      && (s'.disk != s.disk ==> s'.disk.Some? && s.process.Some? && s'.disk.value.child == s.process.value.mem.child)
  {
  }

  lemma StepKeepsChild(cfg: Config, s: System, e: Event, R: ChildProperty)
    requires Fits(cfg, s) && SystemOk(cfg, s) && ReserveKeeps(cfg, R)
    requires ChildInMemory(s, R) && !Clears(cfg, s, e)
    ensures (e.Boot? ==> cfg.persist && ChildOnDisk(s, R)) ==> ChildInMemory(Step(cfg, s, e), R)
    ensures ChildOnDisk(s, R) ==> ChildOnDisk(Step(cfg, s, e), R)
  {
    if Enabled(s, e) {
      if e.Tick? {
        TickKeepsChild(cfg, s, e, R);
      } else if e.FinishBootstrap? {
        FinishKeepsChild(cfg, s, e, R);
      } else {
        StepChild(cfg, s, e);
        assert s.process.Some? ==> R(EventTime(s, e), s.process.value.mem.child);
        assert ChildOnDisk(s, R) ==> R(EventTime(s, e), s.disk.value.child);
      }
    }
  }

  // ----- spacing of the restarts executed by Reconcile

  predicate OnChild(log: seq<Entry>, i: nat) {
    i < |log| && log[i].Executed? && log[i].action == RecoveryRestartChild
  }

  /** No tick cleared the budget since entry i, and the state file or the process carries it. */
  predicate BudgetCarried(cfg: Config, log: seq<Entry>, i: nat) {
    Carried(cfg, log, i) && forall k :: i <= k < |log| ==> !log[k].Cleared?
  }

  ghost function BudgetFrom(cfg: Config, entry: Entry): ChildProperty
    requires ValidConfig(cfg) && entry.Executed? && entry.childAttempt > 0
  {
    (now: Time, c: Child) =>
      entry.childAttempt <= c.attempts && entry.at + ChildDelay(cfg, entry.childAttempt) <= c.nextRetry
  }

  predicate ChildSpaced(cfg: Config, log: seq<Entry>, i: nat, j: nat)
    requires ValidConfig(cfg) && OnChild(log, i)
  {
    i < j && OnChild(log, j) && BudgetCarried(cfg, log[..j], i) ==>
      && 0 < log[i].childAttempt < log[j].childAttempt
      && log[i].at + ChildDelay(cfg, log[i].childAttempt) <= log[j].at
  }

  ghost predicate BudgetInv(cfg: Config, s: System, i: nat)
    requires ValidConfig(cfg) && OnChild(s.log, i)
  {
    var entry := s.log[i];
    && entry.childAttempt > 0
    && (BudgetCarried(cfg, s.log, i) ==>
      && ChildInMemory(s, BudgetFrom(cfg, entry))
      && (cfg.persist ==> ChildOnDisk(s, BudgetFrom(cfg, entry)))
      && (s.process.Some? && s.process.value.pc.Acting? && IsRestart(Some(s.process.value.pc.pending)) ==>
        && entry.childAttempt < s.process.value.mem.child.attempts
        && entry.at + ChildDelay(cfg, entry.childAttempt) <= s.process.value.pc.at))
    && (forall j: nat :: ChildSpaced(cfg, s.log, i, j))
  }

  lemma StepKeepsReserved(cfg: Config, s: System, e: Event, i: nat)
    requires Fits(cfg, s) && SystemOk(cfg, s) && OnChild(s.log, i) && BudgetInv(cfg, s, i)
    requires BudgetCarried(cfg, s.log, i) && BudgetCarried(cfg, Step(cfg, s, e).log, i)
    ensures var s' := Step(cfg, s, e);
      var entry := s.log[i];
      && ChildInMemory(s', BudgetFrom(cfg, entry))
      && (cfg.persist ==> ChildOnDisk(s', BudgetFrom(cfg, entry)))
      && (s'.process.Some? && s'.process.value.pc.Acting? && IsRestart(Some(s'.process.value.pc.pending)) ==>
        && entry.childAttempt < s'.process.value.mem.child.attempts
        && entry.at + ChildDelay(cfg, entry.childAttempt) <= s'.process.value.pc.at)
  {
    var s' := Step(cfg, s, e);
    StepLog(cfg, s, e);
    assert !Clears(cfg, s, e);
    StepKeepsChild(cfg, s, e, BudgetFrom(cfg, s.log[i]));
    if e.Tick? && Enabled(s, e) {
      PlanChild(cfg, e.now, s.process.value.mem, Observed(e.sessions));
    }
  }

  lemma StepKeepsBudget(cfg: Config, s: System, e: Event, i: nat)
    requires Fits(cfg, s) && SystemOk(cfg, s) && OnChild(s.log, i) && BudgetInv(cfg, s, i)
    ensures OnChild(Step(cfg, s, e).log, i) && BudgetInv(cfg, Step(cfg, s, e), i)
  {
    var s' := Step(cfg, s, e);
    StepLog(cfg, s, e);
    if BudgetCarried(cfg, s'.log, i) {
      assert BudgetCarried(cfg, s.log, i) by {
        assert forall k :: i <= k < |s.log| ==> s.log[k] == s'.log[k];
      }
      StepKeepsReserved(cfg, s, e, i);
    }
    forall j: nat
      ensures ChildSpaced(cfg, s'.log, i, j)
    {
      if j < |s.log| {
        assert s'.log[..j] == s.log[..j];
        assert ChildSpaced(cfg, s.log, i, j);
      } else if j < |s'.log| {
        assert s'.log[..j] == s.log;
      }
    }
  }

  lemma {:induction false} RunKeepsBudget(cfg: Config, events: seq<Event>, i: nat)
    requires ValidConfig(cfg) && OnChild(Run(cfg, events).log, i)
    ensures BudgetInv(cfg, Run(cfg, events), i)
  {
    var s := Run(cfg, events[..|events| - 1]);
    var e := events[|events| - 1];
    RunOk(cfg, events[..|events| - 1]);
    StepLog(cfg, s, e);
    if i < |s.log| {
      RunKeepsBudget(cfg, events[..|events| - 1], i);
      StepKeepsBudget(cfg, s, e, i);
    }
  }

  /** In every run, child restarts executed by Reconcile with no clearing of the budget between them climb the
      child's ladder: the attempt number grows, and the earlier one's window has passed. */
  lemma RestartsAreSpaced(cfg: Config, events: seq<Event>, i: nat, j: nat)
    requires ValidConfig(cfg)
    requires i < j && OnChild(Run(cfg, events).log, i) && OnChild(Run(cfg, events).log, j)
    requires BudgetCarried(cfg, Run(cfg, events).log[..j], i)
    ensures var log := Run(cfg, events).log;
      var k := log[i].childAttempt;
      && 0 < k < log[j].childAttempt
      && log[i].at + (if k > |cfg.childBackoffs| then cfg.circuitOpen else cfg.childBackoffs[k - 1]) <= log[j].at
  {
    RunKeepsBudget(cfg, events, i);
    assert ChildSpaced(cfg, Run(cfg, events).log, i, j);
  }

  // ----- how many restarts fit into a window

  /** The child restarts among log[a..b] planned between `from` and `to`. */
  function Restarts(log: seq<Entry>, a: nat, b: nat, from: Time, to: Time): nat
    requires a <= b <= |log|
  {
    if a == b then 0
    else Restarts(log, a, b - 1, from, to)
         + if OnChild(log, b - 1) && from <= log[b - 1].at <= to then 1 else 0
  }

  /** The most restarts up to the one with attempt number k planned at t. */
  function RestartBound(cfg: Config, from: Time, k: nat, t: Time): nat
    requires ValidConfig(cfg) && from <= t
  {
    if k <= |cfg.childBackoffs| then k else |cfg.childBackoffs| + 1 + (t - from) / cfg.circuitOpen
  }

  lemma BoundGrows(cfg: Config, from: Time, k: nat, t: Time, k': nat, t': Time)
    requires ValidConfig(cfg) && from <= t && 0 < k < k' && t + ChildDelay(cfg, k) <= t'
    ensures RestartBound(cfg, from, k, t) + 1 <= RestartBound(cfg, from, k', t')
  {
    if k > |cfg.childBackoffs| {
      DivStep(t - from, cfg.circuitOpen);
      DivMonotone(t - from + cfg.circuitOpen, t' - from, cfg.circuitOpen);
    } else if k' > |cfg.childBackoffs| {
      DivMonotone(0, t' - from, cfg.circuitOpen);
    }
  }

  lemma DivStep(a: nat, d: nat)
    requires d > 0
    ensures (a + d) / d == a / d + 1
  {
    var q, r, q', r' := a / d, a % d, (a + d) / d, (a + d) % d;
    assert d * q + r == a && d * q' + r' == a + d;
    assert d * (q' - q - 1) == r - r';
    SmallMultiple(d, q' - q - 1);
  }

  lemma SmallMultiple(d: int, x: int)
    requires -d < d * x < d
    ensures x == 0
  {
  }

  lemma {:induction false} DivMonotone(a: nat, b: nat, d: nat)
    requires a <= b && d > 0
    ensures a / d <= b / d
  {
    if a >= d {
      DivStep(a - d, d);
      DivStep(b - d, d);
      DivMonotone(a - d, b - d, d);
    }
  }

  /** The restarts among log[a..b] climb the child's ladder. */
  ghost predicate Climbing(cfg: Config, log: seq<Entry>, a: nat, b: nat)
    requires ValidConfig(cfg)
  {
    && (forall i :: a <= i < b && OnChild(log, i) ==> log[i].childAttempt > 0)
    && (forall i, j :: a <= i < j < b && OnChild(log, i) && OnChild(log, j) ==>
        log[i].childAttempt < log[j].childAttempt && log[i].at + ChildDelay(cfg, log[i].childAttempt) <= log[j].at)
  }

  lemma RunClimbs(cfg: Config, events: seq<Event>, a: nat, b: nat)
    requires ValidConfig(cfg) && a <= b <= |Run(cfg, events).log|
    requires BudgetCarried(cfg, Run(cfg, events).log[..b], a)
    ensures Climbing(cfg, Run(cfg, events).log, a, b)
  {
    var log := Run(cfg, events).log;
    forall i: nat | a <= i < b && OnChild(log, i)
      ensures log[i].childAttempt > 0
    {
      RunKeepsBudget(cfg, events, i);
    }
    forall i: nat, j: nat | a <= i < j < b && OnChild(log, i) && OnChild(log, j)
      ensures log[i].childAttempt < log[j].childAttempt && log[i].at + ChildDelay(cfg, log[i].childAttempt) <= log[j].at
    {
      assert forall k :: i <= k < j ==> log[..j][k] == log[..b][k];
      RestartsAreSpaced(cfg, events, i, j);
    }
  }

  /** The last restart of the window, if any, bounds how many there were. */
  lemma {:induction false} CountRestarts(cfg: Config, log: seq<Entry>, a: nat, b: nat, from: Time, to: Time)
    returns (last: nat)
    requires ValidConfig(cfg) && a <= b <= |log| && from <= to && Climbing(cfg, log, a, b)
    ensures var n := Restarts(log, a, b, from, to);
      n > 0 ==> a <= last < b && OnChild(log, last) && from <= log[last].at <= to
                && n <= RestartBound(cfg, from, log[last].childAttempt, log[last].at)
  {
    last := 0;
    if a < b {
      last := CountRestarts(cfg, log, a, b - 1, from, to);
      if OnChild(log, b - 1) && from <= log[b - 1].at <= to {
        if Restarts(log, a, b - 1, from, to) > 0 {
          BoundGrows(cfg, from, log[last].childAttempt, log[last].at, log[b - 1].childAttempt, log[b - 1].at);
        } else {
          DivMonotone(0, log[b - 1].at - from, cfg.circuitOpen);
        }
        last := b - 1;
      }
    }
  }

  lemma WindowBound(cfg: Config, log: seq<Entry>, a: nat, b: nat, from: Time, length: nat)
    requires ValidConfig(cfg) && a <= b <= |log| && Climbing(cfg, log, a, b)
    ensures Restarts(log, a, b, from, from + length) <= |cfg.childBackoffs| + 1 + length / cfg.circuitOpen
  {
    var last := CountRestarts(cfg, log, a, b, from, from + length);
    if Restarts(log, a, b, from, from + length) > 0 {
      DivMonotone(log[last].at - from, length, cfg.circuitOpen);
    }
    DivMonotone(0, length, cfg.circuitOpen);
  }

  /** A window of length T holds at most len(ChildBackoffs) + 1 + T / CircuitOpen restarts by Reconcile. */
  lemma RestartsAreBounded(cfg: Config, events: seq<Event>, a: nat, b: nat, from: Time, length: nat)
    requires ValidConfig(cfg) && a <= b <= |Run(cfg, events).log|
    requires BudgetCarried(cfg, Run(cfg, events).log[..b], a)
    ensures Restarts(Run(cfg, events).log, a, b, from, from + length)
            <= |cfg.childBackoffs| + 1 + length / cfg.circuitOpen
  {
    RunClimbs(cfg, events, a, b);
    WindowBound(cfg, Run(cfg, events).log, a, b, from, length);
  }

  // ----- the bootstrap

  ghost predicate BootstrapInv(s: System, i: nat) {
    i < |s.log| && s.log[i].Bootstrapped? ==>
      && ((exists k :: i < k < |s.log| && s.log[k].Booted?) || s.process.None?
          || (s.process.value.mem.bootstrapAttempted && !s.process.value.pc.Starting?))
      && (forall j :: i < j < |s.log| && s.log[j].Bootstrapped? ==> exists k :: i < k < j && s.log[k].Booted?)
  }

  lemma StepKeepsBootstrap(cfg: Config, s: System, e: Event, i: nat)
    requires Fits(cfg, s) && SystemOk(cfg, s) && BootstrapInv(s, i)
    requires s.process.Some? && (s.process.value.pc.Starting? || s.process.value.pc.Started?) ==>
               s.process.value.mem.bootstrapAttempted
    ensures var s' := Step(cfg, s, e);
      && BootstrapInv(s', i)
      && (s'.process.Some? && (s'.process.value.pc.Starting? || s'.process.value.pc.Started?) ==>
            s'.process.value.mem.bootstrapAttempted)
  {
    var s' := Step(cfg, s, e);
    StepLog(cfg, s, e);
    if i < |s.log| && s.log[i].Bootstrapped? {
      assert forall k :: i < k < |s.log| && s.log[k].Booted? ==> s'.log[k].Booted?;
      if e.Boot? && Enabled(s, e) {
        assert s'.log[|s.log|].Booted?;
      }
      assert (exists k :: i < k < |s'.log| && s'.log[k].Booted?) || s'.process.None?
             || (s'.process.value.mem.bootstrapAttempted && !s'.process.value.pc.Starting?);
    }
  }

  lemma {:induction false} RunKeepsBootstrap(cfg: Config, events: seq<Event>, i: nat)
    requires ValidConfig(cfg)
    ensures var s := Run(cfg, events);
      && BootstrapInv(s, i)
      && (s.process.Some? && (s.process.value.pc.Starting? || s.process.value.pc.Started?) ==>
            s.process.value.mem.bootstrapAttempted)
  {
    if events != [] {
      RunOk(cfg, events[..|events| - 1]);
      RunKeepsBootstrap(cfg, events[..|events| - 1], i);
      StepKeepsBootstrap(cfg, Run(cfg, events[..|events| - 1]), events[|events| - 1], i);
    }
  }

  /** StartChild restarts the child at most once per process: a boot lies between any two bootstraps. */
  lemma BootstrapOncePerProcess(cfg: Config, events: seq<Event>, i: nat, j: nat)
    requires ValidConfig(cfg)
    requires i < j < |Run(cfg, events).log|
    requires Run(cfg, events).log[i].Bootstrapped? && Run(cfg, events).log[j].Bootstrapped?
    ensures exists k :: i < k < j && Run(cfg, events).log[k].Booted?
  {
    RunKeepsBootstrap(cfg, events, i);
  }
}
