/** Runs of the supervisor: boots, ticks, the child's bootstrap, failing saves and crashes
    between any two effects, over one state file and a clock that never goes back. */
module RecoveryRuns {
  import opened Common
  import opened Recovery

  /** A save succeeds, fails leaving the old file, or reports an error after the file was replaced. */
  datatype Save = Saved | Lost | Uncertain

  /** Where a process stands in Reconcile or StartChild, which exclude each other. */
  datatype Pc =
    | Idle
    | Acting(pending: Pending, at: Time)    // planned and saved, not yet executed
    | Acted(pending: Pending, at: Time)     // executed, result not yet recorded
    | Starting(at: Time, halfOpen: bool)    // bootstrap saved, not yet executed
    | Started(at: Time, halfOpen: bool)     // bootstrap executed, result not yet recorded

  /** History: how the child's circuit of this process came to be. */
  datatype Origin = NotOpened | Inherited | OpenedHere | Renewed

  datatype Process = Process(mem: Memory, pc: Pc, origin: Origin)

  /** History of a run. `at` is the clock reading of the tick that planned the effect. */
  datatype Entry =
    | Executed(at: Time, pair: Option<Pair>, action: Action, attempt: nat, childAttempt: nat)
    | Bootstrapped(at: Time)
    | Cleared(at: Time, saved: bool)
    | Booted(at: Time)

  datatype System = System(clock: Time, disk: Option<Persistent>, process: Option<Process>, log: seq<Entry>)

  datatype Event =
    | Boot(now: Time)
    | Tick(now: Time, sessions: seq<Session>, save: Save)
    | StatusFailed(now: Time)
    | Execute
    | Record(now: Time, result: Result, save: Save)
    | Bootstrap(now: Time, save: Save)
    | RunBootstrap
    | FinishBootstrap(started: bool, save: Save)
    | Crash

  const Initial: System := System(0, None, None, [])

  predicate Accepted(cfg: Config, save: Save) { !cfg.persist || save == Saved }

  function Written(cfg: Config, disk: Option<Persistent>, m: Memory, save: Save): Option<Persistent> {
    if !cfg.persist || save == Lost then disk else Some(ToDisk(m))
  }

  function EventTime(s: System, e: Event): Time {
    if e.Boot? || e.Tick? || e.StatusFailed? || e.Record? || e.Bootstrap? then e.now else s.clock
  }

  /** The clock is positive and does not go back, and the event fits the process's position. */
  predicate Enabled(s: System, e: Event) {
    && EventTime(s, e) >= s.clock && EventTime(s, e) > 0
    && (e.Boot? <==> s.process.None?)
    && (e.Tick? || e.StatusFailed? || e.Bootstrap? ==> s.process.value.pc.Idle?)
    && (e.Execute? ==> s.process.value.pc.Acting?)
    && (e.Record? ==> s.process.value.pc.Acted?)
    && (e.RunBootstrap? ==> s.process.value.pc.Starting?)
    && (e.FinishBootstrap? ==> s.process.value.pc.Started?)
  }

  predicate EpisodesFit(cfg: Config, episodes: Episodes) {
    && Covers(cfg, episodes)
    && (forall p :: p in episodes ==> p in cfg.expected)
    && (forall p :: p in cfg.expected ==> episodes[p].pair == p)
  }

  predicate Fits(cfg: Config, s: System) {
    && ValidConfig(cfg)
    && (s.process.Some? ==>
      && EpisodesFit(cfg, s.process.value.mem.episodes)
      && var pc := s.process.value.pc;
         (pc.Acting? || pc.Acted? ==> pc.pending.pair.Some? ==> pc.pending.pair.value in cfg.expected))
  }

  function TickOrigin(cfg: Config, now: Time, x: Process, sessions: seq<Session>): Origin
    requires ValidConfig(cfg) && Covers(cfg, x.mem.episodes)
  {
    var s := Plan(cfg, now, x.mem, Observed(sessions));
    if ClearsBudget(cfg, now, x.mem, Observed(sessions)) then NotOpened
    else if s.pending.Some? && s.pending.value.action == RecoveryRestartChild then
      if s.child.circuitUntil != 0 then OpenedHere else NotOpened
    else x.origin
  }

  function BootstrapOrigin(cfg: Config, x: Process, halfOpen: bool, started: bool, at: Time): Origin
    requires ValidConfig(cfg)
  {
    var m := x.mem;
    if started then if halfOpen then Renewed else x.origin
    else if ChildCircuitOpen(m.child, at) || ChildWaiting(m.child, at) then x.origin
    else if Reserve(cfg, m.child, at).circuitUntil != 0 then OpenedHere else NotOpened
  }

  function TickStep(cfg: Config, s: System, e: Event): System
    requires Fits(cfg, s) && e.Tick? && Enabled(s, e)
  {
    var x := s.process.value;
    var m := TickMemory(cfg, e.now, x.mem, e.sessions);
    var pending := TickPending(cfg, e.now, x.mem, e.sessions);
    var ok := Accepted(cfg, e.save);
    var cleared := ClearsBudget(cfg, e.now, x.mem, Observed(e.sessions));
    System(e.now, Written(cfg, s.disk, m, e.save),
           Some(Process(m, if ok && pending.Some? then Acting(pending.value, e.now) else Idle,
                        TickOrigin(cfg, e.now, x, e.sessions))),
           if cleared then s.log + [Cleared(e.now, ok)] else s.log)
  }

  function BootstrapStep(cfg: Config, s: System, e: Event): System
    requires Fits(cfg, s) && e.Bootstrap? && Enabled(s, e)
  {
    var x := s.process.value;
    if x.mem.bootstrapAttempted then s.(clock := e.now)
    else
      var m := x.mem.(bootstrapAttempted := true);
      var disk := Written(cfg, s.disk, m, e.save);
      var x' := if Accepted(cfg, e.save)
        then Process(m, Starting(e.now, ChildHalfOpenDue(cfg, m.child, e.now)), x.origin) else x;
      System(e.now, disk, Some(x'), s.log)
  }

  function FinishStep(cfg: Config, s: System, e: Event): System
    requires Fits(cfg, s) && e.FinishBootstrap? && Enabled(s, e)
  {
    var x := s.process.value;
    var pc := x.pc;
    var m := BootstrapMemory(cfg, pc.at, x.mem, pc.halfOpen, e.started);
    System(s.clock, Written(cfg, s.disk, m, e.save),
           Some(Process(m, Idle, BootstrapOrigin(cfg, x, pc.halfOpen, e.started, pc.at))), s.log)
  }

  function ExecutedEntry(x: Process): Entry
    requires x.pc.Acting?
  {
    var p := x.pc.pending.pair;
    Executed(x.pc.at, p, x.pc.pending.action,
             if p.Some? && p.value in x.mem.episodes then x.mem.episodes[p.value].attempts else 0,
             x.mem.child.attempts)
  }

  function BootStep(cfg: Config, s: System, now: Time): System {
    var m := Load(cfg, now, s.disk);
    System(now, s.disk, Some(Process(m, Idle, if ChildCircuitOpen(m.child, now) then Inherited else NotOpened)),
           s.log + [Booted(now)])
  }

  function ExecuteStep(s: System): System
    requires s.process.Some? && s.process.value.pc.Acting?
  {
    var x := s.process.value;
    System(s.clock, s.disk, Some(Process(x.mem, Acted(x.pc.pending, x.pc.at), x.origin)), s.log + [ExecutedEntry(x)])
  }

  function RecordStep(cfg: Config, s: System, e: Event): System
    requires Fits(cfg, s) && e.Record? && Enabled(s, e)
  {
    var x := s.process.value;
    var m := RecordMemory(x.mem, x.pc.pending, e.result);
    System(e.now, Written(cfg, s.disk, m, e.save), Some(Process(m, Idle, x.origin)), s.log)
  }

  function RunBootstrapStep(s: System): System
    requires s.process.Some? && s.process.value.pc.Starting?
  {
    var x := s.process.value;
    System(s.clock, s.disk, Some(Process(x.mem, Started(x.pc.at, x.pc.halfOpen), x.origin)),
           s.log + [Bootstrapped(x.pc.at)])
  }

  /** One step; an event that is not enabled changes nothing. */
  function Step(cfg: Config, s: System, e: Event): System
    requires Fits(cfg, s)
  {
    if !Enabled(s, e) then s else
    match e
    case Boot(now) => BootStep(cfg, s, now)
    case Tick(_, _, _) => TickStep(cfg, s, e)
    case StatusFailed(now) => System(now, s.disk, s.process, s.log)
    case Execute => ExecuteStep(s)
    case Record(_, _, _) => RecordStep(cfg, s, e)
    case Bootstrap(_, _) => BootstrapStep(cfg, s, e)
    case RunBootstrap => RunBootstrapStep(s)
    case FinishBootstrap(_, _) => FinishStep(cfg, s, e)
    case Crash => System(s.clock, s.disk, None, s.log)
  }

  function Run(cfg: Config, events: seq<Event>): (s: System)
    requires ValidConfig(cfg)
    ensures Fits(cfg, s)
  {
    if events == [] then Initial
    else
      var s := Run(cfg, events[..|events| - 1]);
      StepFits(cfg, s, events[|events| - 1]);
      Step(cfg, s, events[|events| - 1])
  }

  /** Further steps from a state. */
  function Steps(cfg: Config, s: System, events: seq<Event>): (r: System)
    requires Fits(cfg, s)
    ensures Fits(cfg, r)
    decreases |events|
  {
    if events == [] then s
    else
      StepFits(cfg, s, events[0]);
      Steps(cfg, Step(cfg, s, events[0]), events[1..])
  }

  lemma RunAppend(cfg: Config, events: seq<Event>, e: Event)
    requires ValidConfig(cfg)
    ensures Run(cfg, events + [e]) == Step(cfg, Run(cfg, events), e)
  {
    assert (events + [e])[..|events|] == events;
  }

  /** A run can be cut anywhere. */
  lemma {:induction false} RunSteps(cfg: Config, before: seq<Event>, events: seq<Event>)
    requires ValidConfig(cfg)
    ensures Run(cfg, before + events) == Steps(cfg, Run(cfg, before), events)
    decreases |events|
  {
    if events == [] {
      assert before + events == before;
    } else {
      RunAppend(cfg, before, events[0]);
      assert before + events == (before + [events[0]]) + events[1..];
      RunSteps(cfg, before + [events[0]], events[1..]);
    }
  }

  lemma OneStep(cfg: Config, s: System, e: Event)
    requires Fits(cfg, s)
    ensures Fits(cfg, Step(cfg, s, e)) && Steps(cfg, s, [e]) == Step(cfg, s, e)
  {
    StepFits(cfg, s, e);
    assert [e][1..] == [];
  }

  lemma ThreeSteps(cfg: Config, s: System, e: Event, f: Event, g: Event)
    requires Fits(cfg, s)
    ensures Fits(cfg, Step(cfg, s, e)) && Fits(cfg, Step(cfg, Step(cfg, s, e), f))
    ensures Steps(cfg, s, [e, f, g]) == Step(cfg, Step(cfg, Step(cfg, s, e), f), g)
  {
    StepFits(cfg, s, e);
    StepFits(cfg, Step(cfg, s, e), f);
    OneStep(cfg, Step(cfg, Step(cfg, s, e), f), g);
    assert [e, f, g][1..] == [f, g] && [f, g][1..] == [g];
  }

  // ----- what a sweep does to every episode

  /** P holds of every expected pair's episode. */
  ghost predicate Each(cfg: Config, episodes: Episodes, P: (Pair, Episode) -> bool)
    requires Covers(cfg, episodes)
  {
    forall p :: p in cfg.expected ==> P(p, episodes[p])
  }

  /** Planning one episode at `now` keeps P. */
  ghost predicate PlanKeeps(cfg: Config, now: Time, P: (Pair, Episode) -> bool)
    requires ValidConfig(cfg)
  {
    forall p, e, child, seen, sick ::
      P(p, e) ==> P(p, PlanEpisode(cfg, now, p, e, child, seen, sick).episode)
  }

  /** The state of one episode right before a sweep chose an action for it. */
  datatype Chosen = Chosen(before: Episode, seen: Option<SessionState>)

  /** A sweep keeps whatever planning keeps, changes the child's budget only by reserving the restart
      it chose, and chose its action from an episode that still satisfied P. */
  lemma {:induction false} SweepKeeps(cfg: Config, now: Time, episodes: Episodes, child: Child, ready: bool,
                                      observed: map<Pair, SessionState>, sick: bool, i: nat,
                                      P: (Pair, Episode) -> bool) returns (c: Chosen)
    requires ValidConfig(cfg) && Covers(cfg, episodes) && i <= |cfg.expected|
    requires Each(cfg, episodes, P) && PlanKeeps(cfg, now, P)
    ensures var s := SweepFrom(cfg, now, episodes, child, ready, observed, sick, i);
      && Each(cfg, s.episodes, P)
      && (s.pending.Some? ==>
        && s.pending.value.pair.Some? && s.pending.value.pair.value in cfg.expected
        && s.pending.value.action != RecoveryNone
        && var p := s.pending.value.pair.value;
           var r := PlanEpisode(cfg, now, p, c.before, child, c.seen, sick);
           P(p, c.before) && r == Planned(s.episodes[p], s.child, s.pending.value.action)
           && c.seen == Seen(observed, p))
      && (s.pending.None? ==> s.child == child)
    decreases |cfg.expected| - i
  {
    c := Chosen(FreshEpisode(Pair("", "")), None);
    if i < |cfg.expected| {
      var p := cfg.expected[i];
      var r := PlanEpisode(cfg, now, p, episodes[p], child, Seen(observed, p), sick);
      assert P(p, r.episode);
      var episodes' := episodes[p := r.episode];
      assert Each(cfg, episodes', P);
      if r.action != RecoveryNone {
        c := Chosen(episodes[p], Seen(observed, p));
      } else {
        c := SweepKeeps(cfg, now, episodes', r.child, ready && SeenUp(observed, p), observed, sick, i + 1, P);
      }
    }
  }

  lemma PlanFits(cfg: Config, now: Time, m: Memory, observed: map<Pair, SessionState>)
    requires ValidConfig(cfg) && EpisodesFit(cfg, m.episodes)
    ensures var s := Plan(cfg, now, m, observed);
      && EpisodesFit(cfg, s.episodes)
      && (s.pending.Some? && s.pending.value.pair.Some? ==> s.pending.value.pair.value in cfg.expected)
  {
    var P := (p: Pair, x: Episode) => x.pair == p;
    assert Each(cfg, m.episodes, P);
    var _ := SweepKeeps(cfg, now, m.episodes, m.child, true, observed, AllUnhealthy(cfg, observed), 0, P);
    var s := Plan(cfg, now, m, observed);
    assert s.episodes.Keys == m.episodes.Keys;
    assert forall p :: p in cfg.expected ==> P(p, s.episodes[p]);
  }

  lemma StepFits(cfg: Config, s: System, e: Event)
    requires Fits(cfg, s)
    ensures Fits(cfg, Step(cfg, s, e))
  {
    if e.Tick? && Enabled(s, e) {
      PlanFits(cfg, e.now, s.process.value.mem, Observed(e.sessions));
    }
  }
}
