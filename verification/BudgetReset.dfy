/** When a tick reports ready, when it clears the child's budget, and what a cleared budget means for later restarts. */
module BudgetReset {
  import opened Common
  import opened Recovery
  import opened RecoveryRuns
  import opened RecoveryPhases
  import opened RecoveryPacing
  import opened ChildBudget
  import opened SupervisorCalls

  // ----- readiness

  /** The k-th session reported is the last of the pair, and Up. */
  predicate LastUpAt(sessions: seq<Session>, p: Pair, k: nat) {
    k < |sessions| && sessions[k] == Session(p, SessionUp) && forall j :: k < j < |sessions| ==> sessions[j].pair != p
  }

  /** The last session reported for the pair is Up. */
  ghost predicate LastReportedUp(sessions: seq<Session>, p: Pair) {
    exists k: nat :: LastUpAt(sessions, p, k)
  }

  lemma LastUpStep(sessions: seq<Session>, p: Pair)
    requires sessions != []
    ensures var n := |sessions| - 1;
      LastReportedUp(sessions, p)
      <==> if sessions[n].pair == p then sessions[n].state == SessionUp else LastReportedUp(sessions[..n], p)
  {
    var n := |sessions| - 1;
    if sessions[n].pair == p {
      assert sessions[n].state == SessionUp ==> LastUpAt(sessions, p, n);
    } else {
      assert !LastUpAt(sessions, p, n);
      forall k: nat | k < n
        ensures LastUpAt(sessions, p, k) <==> LastUpAt(sessions[..n], p, k)
      {
      }
    }
  }

  lemma {:induction false} ObservedIsLast(sessions: seq<Session>, p: Pair)
    ensures SeenUp(Observed(sessions), p) <==> LastReportedUp(sessions, p)
  {
    if sessions != [] {
      ObservedIsLast(sessions[..|sessions| - 1], p);
      LastUpStep(sessions, p);
    }
  }

  lemma {:induction false} SweepReady(cfg: Config, now: Time, episodes: Episodes, child: Child, ready: bool,
                                      observed: map<Pair, SessionState>, sick: bool, i: nat)
    requires ValidConfig(cfg) && Covers(cfg, episodes) && i <= |cfg.expected|
    ensures SweepFrom(cfg, now, episodes, child, ready, observed, sick, i).ready
            <==> ready && forall k :: i <= k < |cfg.expected| ==> SeenUp(observed, cfg.expected[k])
    decreases |cfg.expected| - i
  {
    if i < |cfg.expected| {
      var p := cfg.expected[i];
      var r := PlanEpisode(cfg, now, p, episodes[p], child, Seen(observed, p), sick);
      if r.action == RecoveryNone {
        SweepReady(cfg, now, episodes[p := r.episode], r.child, ready && SeenUp(observed, p), observed, sick, i + 1);
      }
    }
  }

  /** A tick whose status query succeeded reports ready exactly when the last session reported for every expected
      pair is Up, although the sweep may stop early and the half-open probe skips it. */
  lemma TickReady(cfg: Config, now: Time, m: Memory, sessions: seq<Session>, running: bool)
    requires ValidConfig(cfg) && Covers(cfg, m.episodes)
    ensures TickStatus(cfg, now, m, sessions, running).ready
            <==> forall p :: p in cfg.expected ==> LastReportedUp(sessions, p)
  {
    var observed := Observed(sessions);
    var sick := AllUnhealthy(cfg, observed);
    SweepReady(cfg, now, m.episodes, m.child, true, observed, sick, 0);
    forall p
      ensures SeenUp(observed, p) <==> LastReportedUp(sessions, p)
    {
      ObservedIsLast(sessions, p);
    }
    assert cfg.expected[0] in cfg.expected;
    assert (forall p :: p in cfg.expected ==> SeenUp(observed, p))
           <==> forall k :: 0 <= k < |cfg.expected| ==> SeenUp(observed, cfg.expected[k]);
  }

  /** After every Reconcile whose status query succeeded, whether or not an action was executed and recorded, Ready
      holds exactly when the last session reported for every expected pair is Up; after one whose query failed it does
      not. */
  lemma ReadyMeansAllUp(cfg: Config, now: Time, m: Memory, before: Status, a: Answers, executed: Option<Pending>,
                        m': Memory)
    requires ValidConfig(cfg) && Covers(cfg, m.episodes) && Covers(cfg, m'.episodes)
    ensures ReconcileStatus(cfg, now, m, before, a, executed, m').ready
            <==> a.status.Some? && forall p :: p in cfg.expected ==> LastReportedUp(a.status.value, p)
  {
    if a.status.Some? {
      TickReady(cfg, now, m, a.status.value, a.running);
    }
  }

  // ----- which action a tick chooses

  /** Which action a tick chooses, from the sessions reported to it and the number k of the attempt. On the ladder,
      the child is restarted exactly when no expected session is Up, at the third attempt, or at the second on a
      session that is not reported; a reported session is reset exactly at the second attempt, or at the third if some
      expected session is Up; every other action, and every one past the ladder, replays the configuration. A tick
      without a session to act on restarts the child as the half-open probe. */
  lemma ActionsEscalate(cfg: Config, now: Time, m: Memory, sessions: seq<Session>)
    requires ValidConfig(cfg) && now > 0 && EpisodesFit(cfg, m.episodes)
    requires TickPending(cfg, now, m, sessions).Some?
    ensures var pending := TickPending(cfg, now, m, sessions).value;
      var noneUp := forall q :: q in cfg.expected ==> !LastReportedUp(sessions, q);
      && (pending.pair.None? ==>
            pending.action == RecoveryRestartChild && noneUp && ChildHalfOpenDue(cfg, m.child, now))
      && (pending.pair.Some? ==>
        && pending.pair.value in cfg.expected && !LastReportedUp(sessions, pending.pair.value)
        && var k := TickMemory(cfg, now, m, sessions).episodes[pending.pair.value].attempts;
           var reported := exists i :: 0 <= i < |sessions| && sessions[i].pair == pending.pair.value;
           ChosenAction(|cfg.backoffs|, k, reported, noneUp, pending.action))
  {
    UnhealthyIsNoneUp(cfg, sessions);
    PlanEscalates(cfg, now, m, Observed(sessions));
    var pending := TickPending(cfg, now, m, sessions).value;
    if pending.pair.Some? {
      ObservedIsLast(sessions, pending.pair.value);
      ObservedIsReported(sessions, pending.pair.value);
    }
  }

  lemma UnhealthyIsNoneUp(cfg: Config, sessions: seq<Session>)
    ensures AllUnhealthy(cfg, Observed(sessions)) <==> forall q :: q in cfg.expected ==> !LastReportedUp(sessions, q)
  {
    forall q | q in cfg.expected
      ensures SeenUp(Observed(sessions), q) <==> LastReportedUp(sessions, q)
    {
      ObservedIsLast(sessions, q);
    }
  }

  /** The k-th attempt takes the action that the ladder of n backoffs prescribes. */
  predicate ChosenAction(n: nat, k: nat, reported: bool, noneUp: bool, action: Action) {
    && k > 0 && (k <= 3 || k > n)
    && (action == RecoveryRestartChild <==> k <= n && noneUp && (k == 3 || (k == 2 && !reported)))
    && (action == RecoveryReset <==> k <= n && reported && (k == 2 || (k == 3 && !noneUp)))
    && action != RecoveryNone
  }

  lemma PlanEscalates(cfg: Config, now: Time, m: Memory, observed: map<Pair, SessionState>)
    requires ValidConfig(cfg) && now > 0 && EpisodesFit(cfg, m.episodes) && Plan(cfg, now, m, observed).pending.Some?
    ensures var plan := Plan(cfg, now, m, observed);
      var pending := plan.pending.value;
      && (pending.pair.None? ==>
            pending.action == RecoveryRestartChild && AllUnhealthy(cfg, observed) && ChildHalfOpenDue(cfg, m.child,
                                                                                                      now))
      && (pending.pair.Some? ==>
        && pending.pair.value in cfg.expected && !SeenUp(observed, pending.pair.value)
        && ChosenAction(|cfg.backoffs|, plan.episodes[pending.pair.value].attempts, pending.pair.value in observed,
                        AllUnhealthy(cfg, observed), pending.action))
  {
    var plan, sick := Plan(cfg, now, m, observed), AllUnhealthy(cfg, observed);
    var P := (p: Pair, e: Episode) => true;
    var c := PlanKeepsEach(cfg, now, m, observed, P);
    if plan.pending.value.pair.Some? {
      ChosenIsDue(cfg, now, plan.pending.value.pair.value, c.before, m.child, c.seen, sick);
    } else {
      SweepPendingDown(cfg, now, m.episodes, m.child, true, observed, sick, 0);
    }
  }

  lemma {:induction false} ObservedIsReported(sessions: seq<Session>, p: Pair)
    ensures p in Observed(sessions) <==> exists i :: 0 <= i < |sessions| && sessions[i].pair == p
  {
    if sessions != [] {
      var n := |sessions| - 1;
      ObservedIsReported(sessions[..n], p);
      assert (exists i :: 0 <= i < n && sessions[i].pair == p)
             <==> exists i :: 0 <= i < n && sessions[..n][i].pair == p by {
        assert forall i :: 0 <= i < n ==> sessions[..n][i] == sessions[i];
      }
    }
  }

  // ----- when the budget is cleared

  predicate StableBefore(cfg: Config, now: Time, e: Episode) {
    e.stableSince != 0 && e.stableSince + cfg.stablePeriod <= now
  }

  predicate Reset(e: Episode) {
    && e.attempts == 0 && e.nextRetry == 0 && e.failingSince == 0 && e.circuitUntil == 0
    && e.phase == RecoveryUp && e.lastAction == RecoveryNone && e.lastResult == NoResult
  }

  /** The effect of one visit, which a second visit in the same sweep does not change. */
  lemma PlanVisit(cfg: Config, now: Time, p: Pair, e: Episode, child: Child, seen: Option<SessionState>, sick: bool)
    requires ValidConfig(cfg) && now > 0
    ensures var r := PlanEpisode(cfg, now, p, e, child, seen, sick).episode;
      && (StableUp(cfg, now, r) <==> seen == Some(SessionUp) && StableBefore(cfg, now, e))
      && (StableUp(cfg, now, r) ==> Reset(r))
      && (seen == Some(SessionUp) ==> (StableBefore(cfg, now, r) <==> StableBefore(cfg, now, e)))
  {
  }

  /** The effect on one pair of the rest of a sweep that chooses no action. */
  lemma {:induction false} SweepVisit(cfg: Config, now: Time, episodes: Episodes, child: Child, ready: bool,
                                      observed: map<Pair, SessionState>, sick: bool, i: nat, p: Pair)
    requires ValidConfig(cfg) && now > 0 && Covers(cfg, episodes) && i <= |cfg.expected| && p in cfg.expected
    ensures var s := SweepFrom(cfg, now, episodes, child, ready, observed, sick, i);
      && (p !in cfg.expected[i..] ==> s.episodes[p] == episodes[p])
      && (p in cfg.expected[i..] && s.pending.None? ==>
        && (StableUp(cfg, now, s.episodes[p]) <==> SeenUp(observed, p) && StableBefore(cfg, now, episodes[p]))
        && (StableUp(cfg, now, s.episodes[p]) ==> Reset(s.episodes[p])))
    decreases |cfg.expected| - i
  {
    if i < |cfg.expected| {
      var q := cfg.expected[i];
      var r := PlanEpisode(cfg, now, q, episodes[q], child, Seen(observed, q), sick);
      assert cfg.expected[i..] == [q] + cfg.expected[i + 1..];
      PlanVisit(cfg, now, q, episodes[q], child, Seen(observed, q), sick);
      if r.action == RecoveryNone {
        SweepVisit(cfg, now, episodes[q := r.episode], r.child, ready && SeenUp(observed, q), observed, sick, i + 1, p);
      }
    }
  }

  lemma {:induction false} SweepAllUp(cfg: Config, now: Time, episodes: Episodes, child: Child, ready: bool,
                                      observed: map<Pair, SessionState>, sick: bool, i: nat)
    requires ValidConfig(cfg) && Covers(cfg, episodes) && i <= |cfg.expected|
    requires forall p :: p in cfg.expected ==> SeenUp(observed, p)
    ensures SweepFrom(cfg, now, episodes, child, ready, observed, sick, i).pending.None?
    decreases |cfg.expected| - i
  {
    if i < |cfg.expected| {
      var p := cfg.expected[i];
      assert SeenUp(observed, p);
      var r := PlanEpisode(cfg, now, p, episodes[p], child, Seen(observed, p), sick);
      SweepAllUp(cfg, now, episodes[p := r.episode], r.child, ready && SeenUp(observed, p), observed, sick, i + 1);
    }
  }

  /** A tick clears the child's budget exactly when it sees every expected pair Up and each had been stably Up for a
      whole stable period; such a tick chooses no action and leaves every episode reset. */
  lemma ClearsExactlyWhenStable(cfg: Config, now: Time, m: Memory, observed: map<Pair, SessionState>)
    requires ValidConfig(cfg) && now > 0 && Covers(cfg, m.episodes)
    ensures ClearsBudget(cfg, now, m, observed) <==>
      forall p :: p in cfg.expected ==> SeenUp(observed, p) && StableBefore(cfg, now, m.episodes[p])
    ensures ClearsBudget(cfg, now, m, observed) ==>
      && Plan(cfg, now, m, observed).pending.None?
      && forall p :: p in cfg.expected ==> Reset(Plan(cfg, now, m, observed).episodes[p])
  {
    var sick := AllUnhealthy(cfg, observed);
    var plan := Plan(cfg, now, m, observed);
    assert cfg.expected[..] == cfg.expected[0..] == cfg.expected;
    assert cfg.expected[0] in cfg.expected;
    if plan.pending.Some? {
      PendingNotCleared(cfg, now, m, observed);
      if forall p :: p in cfg.expected ==> SeenUp(observed, p) {
        assert SeenUp(observed, cfg.expected[0]);
        SweepAllUp(cfg, now, m.episodes, m.child, true, observed, sick, 0);
        assert false;
      }
    } else {
      forall p | p in cfg.expected
        ensures StableUp(cfg, now, plan.episodes[p]) <==> SeenUp(observed, p) && StableBefore(cfg, now, m.episodes[p])
        ensures StableUp(cfg, now, plan.episodes[p]) ==> Reset(plan.episodes[p])
      {
        SweepVisit(cfg, now, m.episodes, m.child, true, observed, sick, 0, p);
      }
      if sick {
        assert !SeenUp(observed, cfg.expected[0]);
      }
    }
  }

  // ----- restarts after a clearing

  /** The total wait of the first k restarts. */
  function Ladder(cfg: Config, k: nat): nat
    requires ValidConfig(cfg)
  {
    if k == 0 then 0 else Ladder(cfg, k - 1) + ChildDelay(cfg, k)
  }

  lemma {:induction false} LadderGrows(cfg: Config, j: nat, k: nat)
    requires ValidConfig(cfg) && j <= k
    ensures Ladder(cfg, j) <= Ladder(cfg, k)
  {
    if j < k { LadderGrows(cfg, j, k - 1); }
  }

  /** The least time from a clearing to a restart on behalf of a session, or to a half-open probe. */
  function QuietTime(cfg: Config, forSession: bool): nat
    requires ValidConfig(cfg)
  {
    if forSession then cfg.gracePeriod + cfg.backoffs[0] else Ladder(cfg, |cfg.childBackoffs| + 1)
  }

  predicate QuietEpisode(cfg: Config, now: Time, e: Episode, at: Time)
    requires ValidConfig(cfg)
  {
    && at <= now
    && if e.attempts == 0 then e.nextRetry == 0 && (e.failingSince == 0 || at <= e.failingSince)
       else e.nextRetry != 0 && at + cfg.gracePeriod + cfg.backoffs[0] <= e.nextRetry
  }

  ghost function QuietSince(cfg: Config, at: Time): EpisodeProperty
    requires ValidConfig(cfg)
  {
    (now: Time, p: Pair, e: Episode) => QuietEpisode(cfg, now, e, at)
  }

  ghost function QuietChild(cfg: Config, at: Time): ChildProperty
    requires ValidConfig(cfg)
  {
    (now: Time, c: Child) =>
      && at <= now
      && if c.attempts == 0 then c.nextRetry == 0 else at + Ladder(cfg, c.attempts) <= c.nextRetry
  }

  lemma QuietKept(cfg: Config, at: Time)
    requires ValidConfig(cfg) && at > 0
    ensures Kept(cfg, QuietSince(cfg, at)) && ReserveKeeps(cfg, QuietChild(cfg, at))
  {
    forall t, p, e, child, seen, sick | t > 0 && QuietEpisode(cfg, t, e, at)
      ensures QuietEpisode(cfg, t, PlanEpisode(cfg, t, p, e, child, seen, sick).episode, at)
    {
    }
    var R := QuietChild(cfg, at);
    forall t: Time, c: Child | t > 0 && R(t, c) && !ChildWaiting(c, t)
      ensures R(t, Reserve(cfg, c, t))
    {
      assert Ladder(cfg, c.attempts + 1) == Ladder(cfg, c.attempts) + ChildDelay(cfg, c.attempts + 1);
    }
  }

  predicate IsClearing(log: seq<Entry>, i: nat) {
    i < |log| && log[i].Cleared?
  }

  /** The clearing reached the state file, or the same process goes on. */
  predicate ClearingCarried(cfg: Config, log: seq<Entry>, i: nat)
    requires IsClearing(log, i)
  {
    (cfg.persist && log[i].saved) || forall k :: i <= k < |log| ==> !log[k].Booted?
  }

  predicate QuietAfter(cfg: Config, log: seq<Entry>, i: nat, j: nat)
    requires ValidConfig(cfg) && IsClearing(log, i)
  {
    i < j && OnChild(log, j) && ClearingCarried(cfg, log[..j], i) ==>
      log[i].at + QuietTime(cfg, log[j].pair.Some?) <= log[j].at
  }

  ghost predicate QuietInv(cfg: Config, s: System, i: nat)
    requires ValidConfig(cfg) && IsClearing(s.log, i)
  {
    var at := s.log[i].at;
    && at > 0
    && (ClearingCarried(cfg, s.log, i) ==>
      && HoldsInMemory(cfg, s, QuietSince(cfg, at)) && ChildInMemory(s, QuietChild(cfg, at))
      && (cfg.persist && s.log[i].saved ==>
          HoldsOnDisk(cfg, s, QuietSince(cfg, at)) && ChildOnDisk(s, QuietChild(cfg, at)))
      && (s.process.Some? && s.process.value.pc.Acting? && IsRestart(Some(s.process.value.pc.pending)) ==>
          at + QuietTime(cfg, s.process.value.pc.pending.pair.Some?) <= s.process.value.pc.at))
    && (forall j: nat :: QuietAfter(cfg, s.log, i, j))
  }

  /** A quiet episode or budget that leads to a restart shows that the quiet time has passed. */
  lemma RestartIsLate(cfg: Config, now: Time, m: Memory, sessions: seq<Session>, at: Time)
    requires ValidConfig(cfg) && now > 0 && at > 0 && EpisodesFit(cfg, m.episodes)
    requires HoldsOf(cfg, now, m.episodes, QuietSince(cfg, at)) && QuietChild(cfg, at)(now, m.child)
    requires IsRestart(TickPending(cfg, now, m, sessions))
    ensures at + QuietTime(cfg, TickPending(cfg, now, m, sessions).value.pair.Some?) <= now
  {
    QuietKept(cfg, at);
    var pending := TickPending(cfg, now, m, sessions).value;
    if pending.pair.Some? {
      var c := TickKeeps(cfg, now, m, sessions, QuietSince(cfg, at));
      assert QuietEpisode(cfg, now, c.before, at);
    } else {
      var P := (p: Pair, e: Episode) => true;
      var _ := PlanKeepsEach(cfg, now, m, Observed(sessions), P);
      LadderGrows(cfg, |cfg.childBackoffs| + 1, m.child.attempts);
    }
  }

  /** After a clearing the budget starts over: nothing is planned, and the new budget is empty. */
  lemma ClearingIsQuiet(cfg: Config, s: System, e: Event)
    requires Fits(cfg, s) && Clears(cfg, s, e)
    ensures var s' := TickStep(cfg, s, e);
      && s'.process.value.pc.Idle?
      && HoldsInMemory(cfg, s', QuietSince(cfg, e.now)) && ChildInMemory(s', QuietChild(cfg, e.now))
      && (cfg.persist && Accepted(cfg, e.save) ==>
          HoldsOnDisk(cfg, s', QuietSince(cfg, e.now)) && ChildOnDisk(s', QuietChild(cfg, e.now)))
  {
    var m := s.process.value.mem;
    ClearsExactlyWhenStable(cfg, e.now, m, Observed(e.sessions));
    var m' := TickMemory(cfg, e.now, m, e.sessions);
    assert m'.child == Child(0, 0, 0);
    assert m'.episodes == Plan(cfg, e.now, m, Observed(e.sessions)).episodes;
    assert HoldsOf(cfg, e.now, m'.episodes, QuietSince(cfg, e.now));
  }

  lemma TickRestartIsLate(cfg: Config, s: System, e: Event, at: Time)
    requires Fits(cfg, s) && e.Tick? && Enabled(s, e) && at > 0
    requires HoldsInMemory(cfg, s, QuietSince(cfg, at)) && ChildInMemory(s, QuietChild(cfg, at))
    ensures var pending := TickPending(cfg, e.now, s.process.value.mem, e.sessions);
      IsRestart(pending) ==> at + QuietTime(cfg, pending.value.pair.Some?) <= e.now
  {
    var m := s.process.value.mem;
    QuietKept(cfg, at);
    HoldsLater(cfg, s.clock, e.now, m.episodes, QuietSince(cfg, at));
    if IsRestart(TickPending(cfg, e.now, m, e.sessions)) {
      RestartIsLate(cfg, e.now, m, e.sessions, at);
    }
  }

  /** The step does not take the state of a process without a file to a new one. */
  predicate Carries(cfg: Config, s: System, e: Event, i: nat)
    requires IsClearing(s.log, i)
  {
    ClearingCarried(cfg, s.log, i) && (e.Boot? && Enabled(s, e) ==> cfg.persist && s.log[i].saved)
  }

  lemma EpisodesStayQuiet(cfg: Config, s: System, e: Event, i: nat)
    requires Fits(cfg, s) && SystemOk(cfg, s) && IsClearing(s.log, i) && QuietInv(cfg, s, i) && Carries(cfg, s, e, i)
    ensures var s', Q := Step(cfg, s, e), QuietSince(cfg, s.log[i].at);
      HoldsInMemory(cfg, s', Q) && (cfg.persist && s.log[i].saved ==> HoldsOnDisk(cfg, s', Q))
  {
    QuietKept(cfg, s.log[i].at);
    if Enabled(s, e) {
      StepKeeps(cfg, s, e, QuietSince(cfg, s.log[i].at));
    }
  }

  lemma ClearedBudgetIsQuiet(cfg: Config, s: System, e: Event, at: Time)
    requires Fits(cfg, s) && Clears(cfg, s, e) && at <= e.now
    ensures var s', R := Step(cfg, s, e), QuietChild(cfg, at);
      ChildInMemory(s', R) && (ChildOnDisk(s, R) ==> ChildOnDisk(s', R))
  {
    assert TickMemory(cfg, e.now, s.process.value.mem, e.sessions).child == Child(0, 0, 0);
  }

  lemma BudgetStaysQuiet(cfg: Config, s: System, e: Event, i: nat)
    requires Fits(cfg, s) && SystemOk(cfg, s) && IsClearing(s.log, i) && QuietInv(cfg, s, i) && Carries(cfg, s, e, i)
    ensures var s', R := Step(cfg, s, e), QuietChild(cfg, s.log[i].at);
      ChildInMemory(s', R) && (cfg.persist && s.log[i].saved ==> ChildOnDisk(s', R))
  {
    var at := s.log[i].at;
    QuietKept(cfg, at);
    if Enabled(s, e) {
      if Clears(cfg, s, e) {
        ClearedBudgetIsQuiet(cfg, s, e, at);
      } else {
        StepKeepsChild(cfg, s, e, QuietChild(cfg, at));
      }
    }
  }

  lemma StepKeepsQuietPlan(cfg: Config, s: System, e: Event, i: nat)
    requires Fits(cfg, s) && IsClearing(s.log, i) && QuietInv(cfg, s, i) && ClearingCarried(cfg, s.log, i)
    ensures var s' := Step(cfg, s, e);
      s'.process.Some? && s'.process.value.pc.Acting? && IsRestart(Some(s'.process.value.pc.pending)) ==>
        s.log[i].at + QuietTime(cfg, s'.process.value.pc.pending.pair.Some?) <= s'.process.value.pc.at
  {
    if e.Tick? && Enabled(s, e) {
      TickRestartIsLate(cfg, s, e, s.log[i].at);
    }
  }

  lemma StepKeepsQuiet(cfg: Config, s: System, e: Event, i: nat)
    requires Fits(cfg, s) && SystemOk(cfg, s) && IsClearing(s.log, i) && QuietInv(cfg, s, i)
    ensures IsClearing(Step(cfg, s, e).log, i) && QuietInv(cfg, Step(cfg, s, e), i)
  {
    var s' := Step(cfg, s, e);
    StepLog(cfg, s, e);
    if ClearingCarried(cfg, s'.log, i) {
      assert ClearingCarried(cfg, s.log, i) by {
        assert forall k :: i <= k < |s.log| ==> s.log[k] == s'.log[k];
      }
      EpisodesStayQuiet(cfg, s, e, i);
      BudgetStaysQuiet(cfg, s, e, i);
      StepKeepsQuietPlan(cfg, s, e, i);
    }
    forall j: nat
      ensures QuietAfter(cfg, s'.log, i, j)
    {
      if j < |s.log| {
        assert s'.log[..j] == s.log[..j];
        assert QuietAfter(cfg, s.log, i, j);
      } else if j < |s'.log| {
        assert s'.log[..j] == s.log;
      }
    }
  }

  lemma {:induction false} RunKeepsQuiet(cfg: Config, events: seq<Event>, i: nat)
    requires ValidConfig(cfg) && IsClearing(Run(cfg, events).log, i)
    ensures QuietInv(cfg, Run(cfg, events), i)
  {
    var s := Run(cfg, events[..|events| - 1]);
    var e := events[|events| - 1];
    RunOk(cfg, events[..|events| - 1]);
    StepLog(cfg, s, e);
    if i < |s.log| {
      RunKeepsQuiet(cfg, events[..|events| - 1], i);
      StepKeepsQuiet(cfg, s, e, i);
    } else {
      assert Clears(cfg, s, e);
      ClearingIsQuiet(cfg, s, e);
    }
  }

  /** After a clearing of the budget that was saved (or in the same process), no session makes Reconcile restart the
      child before a grace period and the first backoff have passed, and no half-open probe does before the whole
      child ladder and a circuit interval have passed. */
  lemma RestartsAfterClearing(cfg: Config, events: seq<Event>, i: nat, j: nat)
    requires ValidConfig(cfg)
    requires i < j && IsClearing(Run(cfg, events).log, i) && OnChild(Run(cfg, events).log, j)
    requires ClearingCarried(cfg, Run(cfg, events).log[..j], i)
    ensures var log := Run(cfg, events).log;
      log[i].at + (if log[j].pair.Some? then cfg.gracePeriod + cfg.backoffs[0]
                   else Ladder(cfg, |cfg.childBackoffs| + 1)) <= log[j].at
  {
    RunKeepsQuiet(cfg, events, i);
    assert QuietAfter(cfg, Run(cfg, events).log, i, j);
  }
}
