/** Fairness of the sweep: one action per tick does not starve a session that stays down. */
module RecoveryFairness {
  import opened Common
  import opened Recovery
  import opened RecoveryRuns
  import opened RecoveryPhases
  import opened RecoveryPacing
  import opened ChildBudget

  /** One tick with a readable status. */
  datatype TickInput = TickInput(now: Time, sessions: seq<Session>)

  function Next(cfg: Config, m: Memory, t: TickInput): (m': Memory)
    requires ValidConfig(cfg) && Covers(cfg, m.episodes)
    ensures Covers(cfg, m'.episodes)
  {
    TickMemory(cfg, t.now, m, t.sessions)
  }

  /** The tick acts on the session, or puts it off to the end of the child's restart window. */
  predicate Served(cfg: Config, m: Memory, t: TickInput, p: Pair)
    requires ValidConfig(cfg) && Covers(cfg, m.episodes) && p in cfg.expected
  {
    var pending := TickPending(cfg, t.now, m, t.sessions);
    || (pending.Some? && pending.value.pair == Some(p))
    || (ChildWaiting(m.child, t.now) && Next(cfg, m, t).episodes[p].nextRetry == m.child.nextRetry)
  }

  /** The rungs of a ladder of more than three backoffs for which no action is defined. */
  predicate NoActionRung(cfg: Config, attempts: nat) {
    3 <= attempts < |cfg.backoffs|
  }

  function Least(backoffs: seq<nat>): (g: nat)
    requires backoffs != []
    ensures forall k :: 0 <= k < |backoffs| ==> g <= backoffs[k]
  {
    if |backoffs| == 1 then backoffs[0] else Min(backoffs[0], Least(backoffs[1..]))
  }

  /** The least time that can lie between two actions on one session. */
  function ShortestGap(cfg: Config): nat
    requires ValidConfig(cfg)
  {
    Min(Min(Least(cfg.backoffs), cfg.circuitOpen), cfg.stablePeriod + cfg.gracePeriod)
  }

  lemma ShortestIsShort(cfg: Config, k: nat)
    requires ValidConfig(cfg) && k > 0
    ensures ShortestGap(cfg) <= Gap(cfg, k)
  {
  }

  /** Planning a session that is down and due. */
  lemma PlanDue(cfg: Config, now: Time, p: Pair, e: Episode, child: Child, seen: Option<SessionState>, sick: bool)
    requires ValidConfig(cfg) && Due(cfg, now, e) && seen != Some(SessionUp)
    ensures var r := PlanEpisode(cfg, now, p, e, child, seen, sick);
      if NoActionRung(cfg, e.attempts) then
        r.action == RecoveryNone && Due(cfg, now, r.episode) && r.episode.attempts == e.attempts
      else if r.action == RecoveryNone then
        ChildWaiting(child, now) && PutOff(cfg, now, r.episode, child)
      else true
  {
  }

  /** A session that waits for the end of the child's window. */
  predicate PutOff(cfg: Config, now: Time, e: Episode, child: Child) {
    e.failingSince != 0 && e.failingSince + cfg.gracePeriod <= now && e.nextRetry == child.nextRetry
  }

  lemma PlanPutOff(cfg: Config, now: Time, p: Pair, e: Episode, child: Child, seen: Option<SessionState>, sick: bool)
    requires ValidConfig(cfg) && PutOff(cfg, now, e, child) && ChildWaiting(child, now) && seen != Some(SessionUp)
    ensures var r := PlanEpisode(cfg, now, p, e, child, seen, sick);
      r.action == RecoveryNone && PutOff(cfg, now, r.episode, child)
  {
  }

  lemma PlanNone(cfg: Config, now: Time, p: Pair, e: Episode, child: Child, seen: Option<SessionState>, sick: bool)
    requires ValidConfig(cfg) && PlanEpisode(cfg, now, p, e, child, seen, sick).action == RecoveryNone
    ensures PlanEpisode(cfg, now, p, e, child, seen, sick).child == child
  {
  }

  /** The rest of a sweep keeps a session put off that this sweep put off to the child's window. */
  lemma {:induction false} SweepDefers(cfg: Config, now: Time, episodes: Episodes, child: Child, ready: bool,
                                       observed: map<Pair, SessionState>, sick: bool, i: nat, p: Pair)
    requires ValidConfig(cfg) && now > 0 && Covers(cfg, episodes) && i <= |cfg.expected| && p in cfg.expected
    requires !SeenUp(observed, p) && ChildWaiting(child, now) && PutOff(cfg, now, episodes[p], child)
    ensures SweepFrom(cfg, now, episodes, child, ready, observed, sick, i).episodes[p].nextRetry == child.nextRetry
    decreases |cfg.expected| - i
  {
    if i < |cfg.expected| {
      var q := cfg.expected[i];
      var r := PlanEpisode(cfg, now, q, episodes[q], child, Seen(observed, q), sick);
      if p == q {
        PlanPutOff(cfg, now, q, episodes[q], child, Seen(observed, q), sick);
      }
      if r.action == RecoveryNone {
        PlanNone(cfg, now, q, episodes[q], child, Seen(observed, q), sick);
        SweepDefers(cfg, now, episodes[q := r.episode], child, ready && SeenUp(observed, q), observed, sick, i + 1, p);
      }
    }
  }

  /** The rest of a sweep acts on a session that is down and due, puts it off, or stops before it. */
  lemma {:induction false} SweepServes(cfg: Config, now: Time, episodes: Episodes, child: Child, ready: bool,
                                       observed: map<Pair, SessionState>, sick: bool, i: nat, p: Pair)
    requires ValidConfig(cfg) && now > 0 && Covers(cfg, episodes) && i <= |cfg.expected| && p in cfg.expected
    requires !SeenUp(observed, p) && Due(cfg, now, episodes[p]) && !NoActionRung(cfg, episodes[p].attempts)
    ensures var s := SweepFrom(cfg, now, episodes, child, ready, observed, sick, i);
      || (s.pending.Some? && s.pending.value.pair == Some(p))
      || (ChildWaiting(child, now) && s.episodes[p].nextRetry == child.nextRetry)
      || ((s.pending.Some? || p !in cfg.expected[i..]) && s.episodes[p] == episodes[p])
    decreases |cfg.expected| - i
  {
    if i < |cfg.expected| {
      var q := cfg.expected[i];
      var r := PlanEpisode(cfg, now, q, episodes[q], child, Seen(observed, q), sick);
      assert cfg.expected[i..] == [q] + cfg.expected[i + 1..];
      if p == q {
        PlanDue(cfg, now, q, episodes[q], child, Seen(observed, q), sick);
      }
      if r.action == RecoveryNone {
        PlanNone(cfg, now, q, episodes[q], child, Seen(observed, q), sick);
        var ready' := ready && SeenUp(observed, q);
        if p == q {
          SweepDefers(cfg, now, episodes[q := r.episode], child, ready', observed, sick, i + 1, p);
        } else {
          SweepServes(cfg, now, episodes[q := r.episode], child, ready', observed, sick, i + 1, p);
        }
      }
    }
  }

  /** A sweep leaves a session on a rung without an action due as it was. */
  lemma {:induction false} SweepStarves(cfg: Config, now: Time, episodes: Episodes, child: Child, ready: bool,
                                        observed: map<Pair, SessionState>, sick: bool, i: nat, p: Pair)
    requires ValidConfig(cfg) && now > 0 && Covers(cfg, episodes) && i <= |cfg.expected| && p in cfg.expected
    requires !SeenUp(observed, p) && Due(cfg, now, episodes[p]) && NoActionRung(cfg, episodes[p].attempts)
    ensures var s := SweepFrom(cfg, now, episodes, child, ready, observed, sick, i);
      && (s.pending.Some? ==> s.pending.value.pair != Some(p))
      && Due(cfg, now, s.episodes[p]) && s.episodes[p].attempts == episodes[p].attempts
    decreases |cfg.expected| - i
  {
    if i < |cfg.expected| {
      var q := cfg.expected[i];
      var r := PlanEpisode(cfg, now, q, episodes[q], child, Seen(observed, q), sick);
      if p == q {
        PlanDue(cfg, now, q, episodes[q], child, Seen(observed, q), sick);
      }
      if r.action == RecoveryNone {
        PlanNone(cfg, now, q, episodes[q], child, Seen(observed, q), sick);
        SweepStarves(cfg, now, episodes[q := r.episode], child, ready && SeenUp(observed, q), observed, sick, i + 1, p);
      }
    }
  }

  /** The state of a fairness argument before a tick: which other sessions were acted on since `start`,
      and whether the half-open probe was. */
  ghost predicate Progress(cfg: Config, m: Memory, now: Time, start: Time, p: Pair, acted: set<Pair>, probed: bool,
                           gap: nat)
    requires ValidConfig(cfg)
  {
    && EpisodesFit(cfg, m.episodes) && p in cfg.expected
    && Due(cfg, now, m.episodes[p]) && !NoActionRung(cfg, m.episodes[p].attempts)
    && p !in acted && (forall q :: q in acted ==> q in cfg.expected && Paced(cfg, now, m.episodes[q], start, gap))
    && (probed ==> start + cfg.circuitOpen <= m.child.nextRetry)
  }

  ghost function ActedProperty(cfg: Config, start: Time, acted: set<Pair>, gap: nat): EpisodeProperty {
    (now: Time, q: Pair, e: Episode) => e.pair == q && (q in acted ==> Paced(cfg, now, e, start, gap))
  }

  lemma ActedKept(cfg: Config, start: Time, acted: set<Pair>, gap: nat)
    requires ValidConfig(cfg) && gap <= cfg.stablePeriod + cfg.gracePeriod
    ensures Kept(cfg, ActedProperty(cfg, start, acted, gap))
  {
    forall q { PacedKept(cfg, q, start, gap); }
    var Q := ActedProperty(cfg, start, acted, gap);
    forall t, q, e, child, seen, sick | t > 0 && Q(t, q, e)
      ensures Q(t, q, PlanEpisode(cfg, t, q, e, child, seen, sick).episode)
    {
      if q in acted {
        var P := (now: Time, p: Pair, e: Episode) => p == q ==> Paced(cfg, now, e, start, gap);
        assert Kept(cfg, P);
        assert P(t, q, e);
      }
    }
  }

  /** An unserved tick chose something else, and did not visit the session. */
  lemma UnservedPending(cfg: Config, m: Memory, t: TickInput, p: Pair)
    requires ValidConfig(cfg) && t.now > 0 && Covers(cfg, m.episodes) && p in cfg.expected
    requires Due(cfg, t.now, m.episodes[p]) && !NoActionRung(cfg, m.episodes[p].attempts)
    requires !SeenUp(Observed(t.sessions), p) && !Served(cfg, m, t, p)
    ensures var plan := Plan(cfg, t.now, m, Observed(t.sessions));
      var m' := Next(cfg, m, t);
      && plan.pending.Some? && plan.pending.value.pair != Some(p)
      && m'.episodes == plan.episodes && m'.child == plan.child && plan.episodes[p] == m.episodes[p]
  {
    var observed := Observed(t.sessions);
    var plan := Plan(cfg, t.now, m, observed);
    SweepServes(cfg, t.now, m.episodes, m.child, true, observed, AllUnhealthy(cfg, observed), 0, p);
    assert cfg.expected[0..] == cfg.expected;
    assert Next(cfg, m, t).episodes == plan.episodes;
    assert plan.pending.Some?;
    PendingNotCleared(cfg, t.now, m, observed);
  }

  /** The sessions acted on since `start` stay paced, and the tick chose none of them. */
  lemma ActedStaysPaced(cfg: Config, m: Memory, t: TickInput, start: Time, p: Pair, acted: set<Pair>, probed: bool)
    requires ValidConfig(cfg) && t.now > 0 && start <= t.now < start + ShortestGap(cfg)
    requires Progress(cfg, m, t.now, start, p, acted, probed, ShortestGap(cfg))
    ensures var m' := Next(cfg, m, t);
      var pending := TickPending(cfg, t.now, m, t.sessions);
      && (forall q :: q in cfg.expected ==>
            ActedProperty(cfg, start, acted, ShortestGap(cfg))(t.now, q, m'.episodes[q]))
      && (pending.Some? && pending.value.pair.Some? ==> pending.value.pair.value !in acted)
  {
    var gap := ShortestGap(cfg);
    var Q := ActedProperty(cfg, start, acted, gap);
    ActedKept(cfg, start, acted, gap);
    var c := TickKeeps(cfg, t.now, m, t.sessions, Q);
    var pending := TickPending(cfg, t.now, m, t.sessions);
    if pending.Some? && pending.value.pair.Some? && pending.value.pair.value in acted {
      PacedWhenDue(cfg, t.now, c.before, start, gap);
      assert false;
    }
  }

  /** An unserved tick acts on a session not acted on before, or is the first half-open probe. */
  lemma UnservedTick(cfg: Config, m: Memory, t: TickInput, start: Time, p: Pair, acted: set<Pair>, probed: bool)
    returns (acted': set<Pair>, probed': bool)
    requires ValidConfig(cfg) && t.now > 0 && start <= t.now < start + ShortestGap(cfg)
    requires Progress(cfg, m, t.now, start, p, acted, probed, ShortestGap(cfg))
    requires !SeenUp(Observed(t.sessions), p) && !Served(cfg, m, t, p)
    ensures Progress(cfg, Next(cfg, m, t), t.now, start, p, acted', probed', ShortestGap(cfg))
    ensures |acted'| + (if probed' then 1 else 0) == |acted| + (if probed then 1 else 0) + 1
  {
    acted', probed' := acted, probed;
    var observed := Observed(t.sessions);
    var plan := Plan(cfg, t.now, m, observed);
    UnservedPending(cfg, m, t, p);
    ActedStaysPaced(cfg, m, t, start, p, acted, probed);
    PlanChild(cfg, t.now, m, observed);
    if plan.pending.value.pair.Some? {
      ChosenPaced(cfg, t.now, m, observed, start);
      acted' := acted + {plan.pending.value.pair.value};
    } else {
      ProbedOnce(cfg, t.now, m, observed);
      probed' := true;
    }
  }

  lemma ChosenPaced(cfg: Config, now: Time, m: Memory, observed: map<Pair, SessionState>, start: Time)
    requires ValidConfig(cfg) && Covers(cfg, m.episodes) && start <= now && now > 0
    requires var pending := Plan(cfg, now, m, observed).pending; pending.Some? && pending.value.pair.Some?
    ensures var s := Plan(cfg, now, m, observed);
      var p := s.pending.value.pair.value;
      p in cfg.expected && Paced(cfg, now, s.episodes[p], start, ShortestGap(cfg))
  {
    var P := (p: Pair, e: Episode) => true;
    var c := PlanKeepsEach(cfg, now, m, observed, P);
    var s := Plan(cfg, now, m, observed);
    ChosenIsDue(cfg, now, s.pending.value.pair.value, c.before, m.child, c.seen, AllUnhealthy(cfg, observed));
    ShortestIsShort(cfg, c.before.attempts + 1);
  }

  lemma ProbedOnce(cfg: Config, now: Time, m: Memory, observed: map<Pair, SessionState>)
    requires ValidConfig(cfg) && Covers(cfg, m.episodes)
    requires var pending := Plan(cfg, now, m, observed).pending; pending.Some? && pending.value.pair.None?
    ensures ChildHalfOpenDue(cfg, m.child, now)
    ensures Plan(cfg, now, m, observed).child.nextRetry == now + cfg.circuitOpen
  {
    var P := (p: Pair, e: Episode) => true;
    var _ := PlanKeepsEach(cfg, now, m, observed, P);
  }

  lemma CardinalityBound(s: seq<Pair>, acted: set<Pair>, p: Pair)
    requires p in s && p !in acted && forall q :: q in acted ==> q in s
    ensures |acted| < |s|
  {
    var all := set q | q in s;
    SeqSetSize(s);
    assert acted + {p} <= all;
    SubsetSize(acted + {p}, all);
  }

  lemma {:induction false} SeqSetSize(s: seq<Pair>)
    ensures |set q | q in s| <= |s|
  {
    if s != [] {
      var n := |s| - 1;
      SeqSetSize(s[..n]);
      assert (set q | q in s) == (set q | q in s[..n]) + {s[n]};
    }
  }

  lemma ProgressLater(cfg: Config, m: Memory, now: Time, later: Time, start: Time, p: Pair, acted: set<Pair>,
                      probed: bool)
    requires ValidConfig(cfg) && now <= later && Progress(cfg, m, now, start, p, acted, probed, ShortestGap(cfg))
    ensures Progress(cfg, m, later, start, p, acted, probed, ShortestGap(cfg))
  {
    forall q | q in acted
      ensures Paced(cfg, later, m.episodes[q], start, ShortestGap(cfg))
    {
      assert Paced(cfg, now, m.episodes[q], start, ShortestGap(cfg));
    }
  }

  lemma StarvedTick(cfg: Config, m: Memory, t: TickInput, p: Pair)
    requires ValidConfig(cfg) && t.now > 0 && Covers(cfg, m.episodes) && p in cfg.expected
    requires Due(cfg, t.now, m.episodes[p]) && NoActionRung(cfg, m.episodes[p].attempts)
    requires !SeenUp(Observed(t.sessions), p)
    ensures !Served(cfg, m, t, p)
    ensures var e := Next(cfg, m, t).episodes[p];
      Due(cfg, t.now, e) && e.attempts == m.episodes[p].attempts
  {
    var observed := Observed(t.sessions);
    SweepStarves(cfg, t.now, m.episodes, m.child, true, observed, AllUnhealthy(cfg, observed), 0, p);
    assert Next(cfg, m, t).episodes == Plan(cfg, t.now, m, observed).episodes;
  }

  // ----- stretches of a run

  /** The event is a tick with a readable status. */
  predicate Ticking(s: System, e: Event) {
    e.Tick? && Enabled(s, e)
  }

  /** It acts on the session or puts it off. */
  predicate TickServes(cfg: Config, s: System, e: Event, p: Pair)
    requires Fits(cfg, s) && p in cfg.expected
  {
    Ticking(s, e) && Served(cfg, s.process.value.mem, TickInput(e.now, e.sessions), p)
  }

  /** Some tick among the events does. */
  predicate ServedIn(cfg: Config, s: System, events: seq<Event>, p: Pair)
    requires Fits(cfg, s) && p in cfg.expected
    decreases |events|
  {
    if events == [] then false
    else
      StepFits(cfg, s, events[0]);
      TickServes(cfg, s, events[0], p) || ServedIn(cfg, Step(cfg, s, events[0]), events[1..], p)
  }

  /** How many ticks there are. */
  function Ticks(cfg: Config, s: System, events: seq<Event>): nat
    requires Fits(cfg, s)
    decreases |events|
  {
    if events == [] then 0
    else
      StepFits(cfg, s, events[0]);
      Ticks(cfg, Step(cfg, s, events[0]), events[1..]) + if Ticking(s, events[0]) then 1 else 0
  }

  /** The process runs on without a crash, ticks come at `start` or later, and none sees the session Up. Actions, their
      recording, failed queries and bootstraps may lie anywhere between the ticks. */
  predicate Outage(cfg: Config, s: System, events: seq<Event>, start: Time, p: Pair)
    requires Fits(cfg, s)
    decreases |events|
  {
    if events == [] then true
    else
      StepFits(cfg, s, events[0]);
      && !events[0].Crash?
      && (Ticking(s, events[0]) ==> start <= events[0].now && !SeenUp(Observed(events[0].sessions), p))
      && Outage(cfg, Step(cfg, s, events[0]), events[1..], start, p)
  }

  /** What an event other than a tick does to the process: results are recorded, and a bootstrap may reserve a
      restart. */
  lemma OtherEvent(cfg: Config, s: System, e: Event)
    requires Fits(cfg, s) && SystemOk(cfg, s) && s.process.Some? && Enabled(s, e) && !e.Tick? && !e.Crash?
    ensures var s' := Step(cfg, s, e);
      && s'.process.Some? && s.clock <= s'.clock
      && (forall p :: p in cfg.expected ==>
            && p in s'.process.value.mem.episodes && p in s.process.value.mem.episodes
            && var e, e' := s.process.value.mem.episodes[p], s'.process.value.mem.episodes[p];
               e' == e.(lastResult := e'.lastResult))
      && (ChildWaiting(s.process.value.mem.child, s.clock) ==> s'.process.value.mem.child == s.process.value.mem.child)
  {
    if e.Record? {
      RecordKeeps(s.process.value.mem, s.process.value.pc.pending, e.result);
    }
  }

  lemma {:induction false} ClockGrows(cfg: Config, s: System, events: seq<Event>)
    requires Fits(cfg, s)
    ensures s.clock <= Steps(cfg, s, events).clock
    decreases |events|
  {
    if events != [] {
      StepFits(cfg, s, events[0]);
      StepLog(cfg, s, events[0]);
      ClockGrows(cfg, Step(cfg, s, events[0]), events[1..]);
    }
  }

  // ----- starvation

  function Later(a: Time, b: Time): Time {
    if a < b then b else a
  }

  /** From `start` on the session is due with these attempts, and, if `quiet`, no action on it is under way. */
  predicate Stuck(cfg: Config, s: System, start: Time, p: Pair, attempts: nat, quiet: bool)
    requires ValidConfig(cfg)
  {
    && s.process.Some? && p in s.process.value.mem.episodes
    && var x := s.process.value;
       && Due(cfg, Later(s.clock, start), x.mem.episodes[p]) && x.mem.episodes[p].attempts == attempts
       && (quiet && (x.pc.Acting? || x.pc.Acted?) ==> x.pc.pending.pair != Some(p))
  }

  /** No action on the session is executed between two logs. */
  predicate NotExecuted(log: seq<Entry>, log': seq<Entry>, p: Pair) {
    log <= log' && forall k :: |log| <= k < |log'| && log'[k].Executed? ==> log'[k].pair != Some(p)
  }

  lemma StuckTick(cfg: Config, s: System, e: Event, start: Time, p: Pair, attempts: nat, quiet: bool)
    requires Fits(cfg, s) && p in cfg.expected && Ticking(s, e) && start <= e.now && !SeenUp(Observed(e.sessions), p)
    requires Stuck(cfg, s, start, p, attempts, quiet) && NoActionRung(cfg, attempts)
    ensures Stuck(cfg, Step(cfg, s, e), start, p, attempts, quiet) && !TickServes(cfg, s, e, p)
  {
    StarvedTick(cfg, s.process.value.mem, TickInput(e.now, e.sessions), p);
  }

  lemma StuckOther(cfg: Config, s: System, e: Event, start: Time, p: Pair, attempts: nat, quiet: bool)
    requires Fits(cfg, s) && SystemOk(cfg, s) && p in cfg.expected && Enabled(s, e) && !e.Tick? && !e.Crash?
    requires Stuck(cfg, s, start, p, attempts, quiet)
    ensures Stuck(cfg, Step(cfg, s, e), start, p, attempts, quiet)
  {
    OtherEvent(cfg, s, e);
  }

  lemma StuckStep(cfg: Config, s: System, e: Event, start: Time, p: Pair, attempts: nat, quiet: bool)
    requires Fits(cfg, s) && SystemOk(cfg, s) && p in cfg.expected
    requires Stuck(cfg, s, start, p, attempts, quiet) && NoActionRung(cfg, attempts) && !e.Crash?
    requires Ticking(s, e) ==> start <= e.now && !SeenUp(Observed(e.sessions), p)
    ensures Stuck(cfg, Step(cfg, s, e), start, p, attempts, quiet) && !TickServes(cfg, s, e, p)
    ensures quiet ==> NotExecuted(s.log, Step(cfg, s, e).log, p)
  {
    StepLog(cfg, s, e);
    if Ticking(s, e) {
      StuckTick(cfg, s, e, start, p, attempts, quiet);
    } else if Enabled(s, e) {
      StuckOther(cfg, s, e, start, p, attempts, quiet);
    }
  }

  lemma {:induction false} StarvesFrom(cfg: Config, s: System, events: seq<Event>, start: Time, p: Pair, attempts: nat,
                                       quiet: bool)
    requires Fits(cfg, s) && SystemOk(cfg, s) && p in cfg.expected && Outage(cfg, s, events, start, p)
    requires Stuck(cfg, s, start, p, attempts, quiet) && NoActionRung(cfg, attempts)
    ensures Stuck(cfg, Steps(cfg, s, events), start, p, attempts, quiet) && !ServedIn(cfg, s, events, p)
    ensures quiet ==> NotExecuted(s.log, Steps(cfg, s, events).log, p)
    decreases |events|
  {
    if events != [] {
      StepFits(cfg, s, events[0]);
      StepOk(cfg, s, events[0]);
      StuckStep(cfg, s, events[0], start, p, attempts, quiet);
      StarvesFrom(cfg, Step(cfg, s, events[0]), events[1..], start, p, attempts, quiet);
    }
  }

  /** A session that is due on a rung without an action gets none again while the process runs and the session stays
      down, however long: no tick chooses it or puts it off, no action on it is executed, and its attempts stay. */
  lemma Starves(cfg: Config, before: seq<Event>, events: seq<Event>, p: Pair)
    requires ValidConfig(cfg) && p in cfg.expected
    requires var s := Run(cfg, before);
      && s.process.Some? && s.process.value.pc.Idle? && Outage(cfg, s, events, 0, p)
      && Due(cfg, s.clock, s.process.value.mem.episodes[p])
      && NoActionRung(cfg, s.process.value.mem.episodes[p].attempts)
    ensures !ServedIn(cfg, Run(cfg, before), events, p)
    ensures var s, s' := Run(cfg, before), Run(cfg, before + events);
      && NotExecuted(s.log, s'.log, p) && s'.process.Some?
      && s'.process.value.mem.episodes[p].attempts == s.process.value.mem.episodes[p].attempts
  {
    var s := Run(cfg, before);
    RunOk(cfg, before);
    RunSteps(cfg, before, events);
    StarvesFrom(cfg, s, events, 0, p, s.process.value.mem.episodes[p].attempts, true);
  }

  // ----- fairness

  /** The state of the argument in a run. */
  ghost predicate Pursued(cfg: Config, s: System, start: Time, p: Pair, acted: set<Pair>, probed: bool)
    requires ValidConfig(cfg)
  {
    && s.process.Some?
    && Progress(cfg, s.process.value.mem, Later(s.clock, start), start, p, acted, probed, ShortestGap(cfg))
  }

  lemma PursuedOther(cfg: Config, s: System, e: Event, start: Time, p: Pair, acted: set<Pair>, probed: bool)
    requires Fits(cfg, s) && SystemOk(cfg, s) && Pursued(cfg, s, start, p, acted, probed)
    requires Enabled(s, e) && !e.Tick? && !e.Crash? && Step(cfg, s, e).clock < start + ShortestGap(cfg)
    ensures Pursued(cfg, Step(cfg, s, e), start, p, acted, probed)
  {
    var s' := Step(cfg, s, e);
    StepFits(cfg, s, e);
    OtherEvent(cfg, s, e);
    var m, m' := s.process.value.mem, s'.process.value.mem;
    var now, now' := Later(s.clock, start), Later(s'.clock, start);
    ProgressLater(cfg, m, now, now', start, p, acted, probed);
    forall q | q in acted
      ensures Paced(cfg, now', m'.episodes[q], start, ShortestGap(cfg))
    {
      assert Paced(cfg, now', m.episodes[q], start, ShortestGap(cfg));
    }
  }

  lemma PursuedTick(cfg: Config, s: System, e: Event, start: Time, p: Pair, acted: set<Pair>, probed: bool)
    returns (acted': set<Pair>, probed': bool)
    requires Fits(cfg, s) && Pursued(cfg, s, start, p, acted, probed) && p in cfg.expected
    requires Ticking(s, e) && start <= e.now < start + ShortestGap(cfg)
    requires !SeenUp(Observed(e.sessions), p) && !TickServes(cfg, s, e, p)
    ensures Pursued(cfg, Step(cfg, s, e), start, p, acted', probed')
    ensures |acted'| + (if probed' then 1 else 0) == |acted| + (if probed then 1 else 0) + 1
  {
    var t := TickInput(e.now, e.sessions);
    ProgressLater(cfg, s.process.value.mem, Later(s.clock, start), e.now, start, p, acted, probed);
    acted', probed' := UnservedTick(cfg, s.process.value.mem, t, start, p, acted, probed);
    assert Step(cfg, s, e).process.value.mem == Next(cfg, s.process.value.mem, t);
  }

  /** While no tick serves the session, every tick acts on a new session or is the one half-open probe, so that there
      are no more ticks than expected pairs. */
  lemma {:induction false} UnservedStretch(cfg: Config, s: System, events: seq<Event>, start: Time, p: Pair,
                                           acted: set<Pair>, probed: bool)
    requires Fits(cfg, s) && SystemOk(cfg, s) && p in cfg.expected && Outage(cfg, s, events, start, p)
    requires Pursued(cfg, s, start, p, acted, probed) && !ServedIn(cfg, s, events, p)
    requires Steps(cfg, s, events).clock < start + ShortestGap(cfg)
    ensures |acted| + (if probed then 1 else 0) + Ticks(cfg, s, events) <= |cfg.expected|
    decreases |events|
  {
    if events == [] {
      CardinalityBound(cfg.expected, acted, p);
    } else {
      var e := events[0];
      StepFits(cfg, s, e);
      StepOk(cfg, s, e);
      ClockGrows(cfg, Step(cfg, s, e), events[1..]);
      var acted', probed' := acted, probed;
      if Ticking(s, e) {
        acted', probed' := PursuedTick(cfg, s, e, start, p, acted, probed);
      } else if Enabled(s, e) {
        PursuedOther(cfg, s, e, start, p, acted, probed);
      }
      UnservedStretch(cfg, Step(cfg, s, e), events[1..], start, p, acted', probed');
    }
  }

  /** Bounded fairness, in every run. Let a session be due at `start`, and let the process run on without a crash over
      a stretch with more ticks than there are expected pairs, all at `start` or later, none of which sees the session
      Up; and let the stretch end less than the shortest gap between two actions on one session after `start`. Then
      some tick acts on the session or puts it off to the child's window, if and only if its attempts are not on a
      rung without an action, which only ladders of more than three backoffs have. */
  lemma DueSessionIsServed(cfg: Config, before: seq<Event>, events: seq<Event>, start: Time, p: Pair)
    requires ValidConfig(cfg) && p in cfg.expected && Run(cfg, before).process.Some?
    requires var s := Run(cfg, before);
      && Outage(cfg, s, events, start, p) && Due(cfg, start, s.process.value.mem.episodes[p])
      && Ticks(cfg, s, events) > |cfg.expected|
    requires Run(cfg, before).clock <= start && Run(cfg, before + events).clock < start + ShortestGap(cfg)
    ensures ServedIn(cfg, Run(cfg, before), events, p)
            <==> !NoActionRung(cfg, Run(cfg, before).process.value.mem.episodes[p].attempts)
  {
    var s := Run(cfg, before);
    RunOk(cfg, before);
    RunSteps(cfg, before, events);
    var attempts := s.process.value.mem.episodes[p].attempts;
    if NoActionRung(cfg, attempts) {
      StarvesFrom(cfg, s, events, start, p, attempts, false);
    } else if !ServedIn(cfg, s, events, p) {
      UnservedStretch(cfg, s, events, start, p, {}, false);
      assert false;
    }
  }

  // ----- what is served is acted on

  /** Some tick puts the session off to the child's restart window. */
  predicate PutOffIn(cfg: Config, s: System, events: seq<Event>, p: Pair)
    requires Fits(cfg, s) && p in cfg.expected
    decreases |events|
  {
    if events == [] then false
    else
      StepFits(cfg, s, events[0]);
      || PutOffIn(cfg, Step(cfg, s, events[0]), events[1..], p)
      || (Ticking(s, events[0]) && ChildWaiting(s.process.value.mem.child, events[0].now)
          && p in Step(cfg, s, events[0]).process.value.mem.episodes
          && Step(cfg, s, events[0]).process.value.mem.episodes[p].nextRetry == s.process.value.mem.child.nextRetry)
  }

  /** Every tick saves its plan. */
  predicate AllSaved(cfg: Config, s: System, events: seq<Event>)
    requires Fits(cfg, s)
    decreases |events|
  {
    if events == [] then true
    else
      StepFits(cfg, s, events[0]);
      && (Ticking(s, events[0]) ==> Accepted(cfg, events[0].save))
      && AllSaved(cfg, Step(cfg, s, events[0]), events[1..])
  }

  /** An action on the session is executed between two logs. */
  predicate ExecutedBetween(log: seq<Entry>, log': seq<Entry>, p: Pair) {
    exists k :: |log| <= k < |log'| && log'[k].Executed? && log'[k].pair == Some(p)
  }

  predicate About(s: System, p: Pair) {
    s.process.Some? && s.process.value.pc.Acting? && s.process.value.pc.pending.pair == Some(p)
  }

  lemma {:induction false} LogGrows(cfg: Config, s: System, events: seq<Event>)
    requires Fits(cfg, s)
    ensures s.log <= Steps(cfg, s, events).log
    decreases |events|
  {
    if events != [] {
      StepFits(cfg, s, events[0]);
      StepLog(cfg, s, events[0]);
      LogGrows(cfg, Step(cfg, s, events[0]), events[1..]);
    }
  }

  /** A planned action stays planned until it is executed. */
  lemma PlannedStep(cfg: Config, s: System, e: Event, p: Pair)
    requires Fits(cfg, s) && About(s, p) && !e.Crash?
    ensures var s' := Step(cfg, s, e);
      || (About(s', p) && s'.log == s.log)
      || (|s'.log| == |s.log| + 1 && s'.log[|s.log|].Executed? && s'.log[|s.log|].pair == Some(p))
  {
  }

  lemma {:induction false} PlannedIsExecuted(cfg: Config, s: System, events: seq<Event>, start: Time, p: Pair)
    requires Fits(cfg, s) && p in cfg.expected && About(s, p) && Outage(cfg, s, events, start, p)
    requires !About(Steps(cfg, s, events), p)
    ensures ExecutedBetween(s.log, Steps(cfg, s, events).log, p)
    decreases |events|
  {
    if events != [] {
      StepFits(cfg, s, events[0]);
      var s' := Step(cfg, s, events[0]);
      PlannedStep(cfg, s, events[0], p);
      LogGrows(cfg, s', events[1..]);
      if About(s', p) {
        PlannedIsExecuted(cfg, s', events[1..], start, p);
      } else {
        assert Steps(cfg, s, events).log[|s.log|] == s'.log[|s.log|];
      }
    }
  }

  /** A tick that serves the session and saves its plan has an action on it planned, or puts it off. */
  lemma ServingTick(cfg: Config, s: System, e: Event, p: Pair)
    requires Fits(cfg, s) && p in cfg.expected && TickServes(cfg, s, e, p) && Accepted(cfg, e.save)
    ensures var s' := Step(cfg, s, e);
      && s'.process.Some? && p in s'.process.value.mem.episodes
      && (About(s', p) || (ChildWaiting(s.process.value.mem.child, e.now)
                           && s'.process.value.mem.episodes[p].nextRetry == s.process.value.mem.child.nextRetry))
  {
    StepFits(cfg, s, e);
  }

  lemma {:induction false} ServedIsExecuted(cfg: Config, s: System, events: seq<Event>, start: Time, p: Pair)
    requires Fits(cfg, s) && p in cfg.expected && Outage(cfg, s, events, start, p) && AllSaved(cfg, s, events)
    requires ServedIn(cfg, s, events, p) && !About(Steps(cfg, s, events), p)
    ensures PutOffIn(cfg, s, events, p) || ExecutedBetween(s.log, Steps(cfg, s, events).log, p)
    decreases |events|
  {
    StepFits(cfg, s, events[0]);
    var s' := Step(cfg, s, events[0]);
    StepLog(cfg, s, events[0]);
    if TickServes(cfg, s, events[0], p) {
      ServingTick(cfg, s, events[0], p);
      if About(s', p) {
        PlannedIsExecuted(cfg, s', events[1..], start, p);
      }
    } else {
      ServedIsExecuted(cfg, s', events[1..], start, p);
    }
  }

  /** Where the saves of the stretch are accepted and no action on the session is left to run at its end, a session that
      fairness serves is put off to the child's window, or an action on it is executed. */
  lemma DueSessionIsActedOn(cfg: Config, before: seq<Event>, events: seq<Event>, start: Time, p: Pair)
    requires ValidConfig(cfg) && p in cfg.expected && Run(cfg, before).process.Some?
    requires var s := Run(cfg, before);
      && Outage(cfg, s, events, start, p) && Due(cfg, start, s.process.value.mem.episodes[p])
      && Ticks(cfg, s, events) > |cfg.expected| && AllSaved(cfg, s, events)
      && !NoActionRung(cfg, s.process.value.mem.episodes[p].attempts)
    requires Run(cfg, before).clock <= start && Run(cfg, before + events).clock < start + ShortestGap(cfg)
    requires !About(Run(cfg, before + events), p)
    ensures PutOffIn(cfg, Run(cfg, before), events, p)
            || ExecutedBetween(Run(cfg, before).log, Run(cfg, before + events).log, p)
  {
    DueSessionIsServed(cfg, before, events, start, p);
    RunSteps(cfg, before, events);
    ServedIsExecuted(cfg, Run(cfg, before), events, start, p);
  }
}
