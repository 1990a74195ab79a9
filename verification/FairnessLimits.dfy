/** Why fairness is stated as it is: the rung without an action is reached, and the stretch has to be short. */
module FairnessLimits {
  import opened Common
  import opened Recovery
  import opened RecoveryRuns
  import opened RecoveryPhases
  import opened RecoveryFairness

  // ----- rounds of a run

  /** The episodes are the same but for their last results. */
  predicate SameButResults(cfg: Config, a: Episodes, b: Episodes) {
    forall p :: p in cfg.expected ==> p in a && p in b && b[p] == a[p].(lastResult := b[p].lastResult)
  }

  lemma TickActs(cfg: Config, s: System, e: Event)
    requires Fits(cfg, s) && e.Tick? && Enabled(s, e) && e.save == Saved
    requires Plan(cfg, e.now, s.process.value.mem, Observed(e.sessions)).pending.Some?
    ensures var s', plan := Step(cfg, s, e), Plan(cfg, e.now, s.process.value.mem, Observed(e.sessions));
      && s'.clock == e.now && s'.process.Some? && s'.process.value.pc == Acting(plan.pending.value, e.now)
      && s'.process.value.mem.episodes == plan.episodes && s'.process.value.mem.child == plan.child
  {
    PendingNotCleared(cfg, e.now, s.process.value.mem, Observed(e.sessions));
  }

  lemma ActsAndRecords(cfg: Config, s: System, next: Time)
    requires Fits(cfg, s) && s.process.Some? && s.process.value.pc.Acting? && 0 < s.clock <= next
    ensures Fits(cfg, Step(cfg, s, Execute))
    ensures var s' := Step(cfg, Step(cfg, s, Execute), Record(next, Success, Saved));
      && s'.clock == next && s'.process.Some? && s'.process.value.pc.Idle?
      && SameButResults(cfg, s.process.value.mem.episodes, s'.process.value.mem.episodes)
      && s'.process.value.mem.child == s.process.value.mem.child
  {
    StepFits(cfg, s, Execute);
    RecordKeeps(s.process.value.mem, s.process.value.pc.pending, Success);
  }

  /** A tick that chooses an action, its execution and its recording. */
  function RoundOf(now: Time, sessions: seq<Session>, next: Time): seq<Event> {
    [Tick(now, sessions, Saved), Execute, Record(next, Success, Saved)]
  }

  lemma Round(cfg: Config, s: System, now: Time, sessions: seq<Session>, next: Time)
    requires Fits(cfg, s) && s.process.Some? && s.process.value.pc.Idle? && s.clock <= now <= next && 0 < now
    requires Plan(cfg, now, s.process.value.mem, Observed(sessions)).pending.Some?
    ensures var s' := Steps(cfg, s, RoundOf(now, sessions, next));
      var plan := Plan(cfg, now, s.process.value.mem, Observed(sessions));
      && s'.clock == next && s'.process.Some? && s'.process.value.pc.Idle?
      && SameButResults(cfg, plan.episodes, s'.process.value.mem.episodes) && s'.process.value.mem.child == plan.child
  {
    var tick := Tick(now, sessions, Saved);
    ThreeSteps(cfg, s, tick, Execute, Record(next, Success, Saved));
    TickActs(cfg, s, tick);
    ActsAndRecords(cfg, Step(cfg, s, tick), next);
  }

  lemma RunRound(cfg: Config, events: seq<Event>, now: Time, sessions: seq<Session>, next: Time)
    returns (events': seq<Event>, s': System)
    requires ValidConfig(cfg)
    requires var s := Run(cfg, events);
      && s.process.Some? && s.process.value.pc.Idle? && s.clock <= now <= next && 0 < now
      && Plan(cfg, now, s.process.value.mem, Observed(sessions)).pending.Some?
    ensures var plan := Plan(cfg, now, Run(cfg, events).process.value.mem, Observed(sessions));
      && s' == Run(cfg, events') && s'.clock == next && s'.process.Some? && s'.process.value.pc.Idle?
      && SameButResults(cfg, plan.episodes, s'.process.value.mem.episodes) && s'.process.value.mem.child == plan.child
  {
    events' := events + RoundOf(now, sessions, next);
    s' := Run(cfg, events');
    Round(cfg, Run(cfg, events), now, sessions, next);
    RunSteps(cfg, events, RoundOf(now, sessions, next));
  }

  // ----- reaching the rung without an action

  function Down(p: Pair): seq<Session> {
    [Session(p, SessionDown)]
  }

  lemma DownIsSeen(cfg: Config, p: Pair)
    ensures Observed(Down(p)) == map[p := SessionDown] && AllUnhealthy(cfg, Observed(Down(p)))
  {
    assert Down(p)[..0] == [];
  }

  /** An episode that has not waited out its grace period. */
  predicate Young(now: Time, e: Episode) {
    e.attempts == 0 && e.nextRetry == 0 && e.circuitUntil == 0 && (e.failingSince == 0 || e.failingSince == now)
  }

  /** A sweep over such episodes chooses nothing and starts their grace periods. */
  lemma {:induction false} SweepStartsGrace(cfg: Config, now: Time, episodes: Episodes, child: Child, ready: bool,
                                            observed: map<Pair, SessionState>, i: nat, p: Pair)
    requires ValidConfig(cfg) && now > 0 && Covers(cfg, episodes) && i <= |cfg.expected| && p in cfg.expected
    requires AllUnhealthy(cfg, observed) && forall q :: q in cfg.expected ==> Young(now, episodes[q])
    ensures var s := SweepFrom(cfg, now, episodes, child, ready, observed, true, i);
      && s.pending.None? && s.child == child && Young(now, s.episodes[p])
      && (p in cfg.expected[i..] || episodes[p].failingSince == now ==> s.episodes[p].failingSince == now)
    decreases |cfg.expected| - i
  {
    if i < |cfg.expected| {
      var q := cfg.expected[i];
      assert !SeenUp(observed, q);
      var r := PlanEpisode(cfg, now, q, episodes[q], child, Seen(observed, q), true);
      assert cfg.expected[i..] == [q] + cfg.expected[i + 1..];
      SweepStartsGrace(cfg, now, episodes[q := r.episode], r.child, ready && SeenUp(observed, q), observed, i + 1, p);
    }
  }

  /** The first session of a process between two calls: k attempts, and due when its time comes. */
  predicate Climbed(cfg: Config, s: System, k: nat, due: Time)
    requires ValidConfig(cfg)
  {
    && s.process.Some? && s.process.value.pc.Idle? && cfg.expected[0] in s.process.value.mem.episodes
    && 0 < s.clock <= due && (k <= 2 ==> s.process.value.mem.child == Child(0, 0, 0))
    && var e := s.process.value.mem.episodes[cfg.expected[0]];
       e.attempts == k && Due(cfg, due, e)
  }

  lemma GraceTick(cfg: Config, s: System, e: Event)
    requires Fits(cfg, s) && s.process.Some? && s.process.value.pc.Idle? && s.process.value.mem.child == Child(0, 0, 0)
    requires e.Tick? && Enabled(s, e) && e == Tick(e.now, Down(cfg.expected[0]), Saved)
    requires forall q :: q in cfg.expected ==> Young(e.now, s.process.value.mem.episodes[q])
    ensures Climbed(cfg, Step(cfg, s, e), 0, e.now + cfg.gracePeriod)
  {
    var p, m := cfg.expected[0], s.process.value.mem;
    DownIsSeen(cfg, p);
    SweepStartsGrace(cfg, e.now, m.episodes, m.child, true, Observed(Down(p)), 0, p);
    assert cfg.expected[0..] == cfg.expected;
  }

  lemma FirstOutage(cfg: Config) returns (events: seq<Event>)
    requires ValidConfig(cfg)
    ensures Climbed(cfg, Run(cfg, events), 0, 1 + cfg.gracePeriod)
  {
    var tick := Tick(1, Down(cfg.expected[0]), Saved);
    RunAppend(cfg, [], Boot(1));
    RunAppend(cfg, [] + [Boot(1)], tick);
    var s := Run(cfg, [] + [Boot(1)]);
    assert s == BootStep(cfg, Initial, 1);
    assert forall q :: q in cfg.expected ==> s.process.value.mem.episodes[q] == FreshEpisode(q);
    GraceTick(cfg, s, tick);
    events := [] + [Boot(1)] + [tick];
  }

  /** The plan of a tick at which the first session is due, with fewer than three attempts on a long ladder. */
  lemma ClimbPlan(cfg: Config, now: Time, m: Memory, k: nat)
    requires ValidConfig(cfg) && now > 0 && Covers(cfg, m.episodes) && k < 3 < |cfg.backoffs|
    requires m.child == Child(0, 0, 0)
    requires m.episodes[cfg.expected[0]].attempts == k && Due(cfg, now, m.episodes[cfg.expected[0]])
    ensures var p := cfg.expected[0];
      var s := Plan(cfg, now, m, Observed(Down(p)));
      && s.pending.Some? && s.pending.value.pair == Some(p)
      && s.episodes[p].attempts == k + 1 && s.episodes[p].nextRetry == now + Delay(cfg, k + 1)
      && s.episodes[p].failingSince == m.episodes[p].failingSince && (k < 2 ==> s.child == Child(0, 0, 0))
  {
    DownIsSeen(cfg, cfg.expected[0]);
  }

  lemma ClimbedAfter(cfg: Config, planned: Episodes, s: System, k: nat, next: Time)
    requires ValidConfig(cfg) && cfg.expected[0] in cfg.expected && s.process.Some? && s.process.value.pc.Idle?
    requires SameButResults(cfg, planned, s.process.value.mem.episodes) && s.clock == next > 0
    requires var e := planned[cfg.expected[0]];
      e.attempts == k && e.nextRetry <= next && e.failingSince != 0 && e.failingSince + cfg.gracePeriod <= next
    requires k <= 2 ==> s.process.value.mem.child == Child(0, 0, 0)
    ensures Climbed(cfg, s, k, next)
  {
  }

  /** One more attempt: a tick when it is due, its execution, and its recording when the next one is due. */
  lemma ClimbOne(cfg: Config, events: seq<Event>, k: nat, now: Time) returns (events': seq<Event>)
    requires ValidConfig(cfg) && k < 3 < |cfg.backoffs| && Climbed(cfg, Run(cfg, events), k, now)
    ensures Climbed(cfg, Run(cfg, events'), k + 1, now + Delay(cfg, k + 1))
    ensures Run(cfg, events').clock == now + Delay(cfg, k + 1)
  {
    var s, next := Run(cfg, events), now + Delay(cfg, k + 1);
    var planned := Plan(cfg, now, s.process.value.mem, Observed(Down(cfg.expected[0])));
    ClimbPlan(cfg, now, s.process.value.mem, k);
    var s';
    events', s' := RunRound(cfg, events, now, Down(cfg.expected[0]), next);
    ClimbedAfter(cfg, planned.episodes, s', k + 1, next);
  }

  /** For every configuration with four or more backoffs there is a run in which a session has made three attempts and
      is due again, and so is starved from then on. */
  lemma RungIsReached(cfg: Config) returns (events: seq<Event>)
    requires ValidConfig(cfg) && |cfg.backoffs| >= 4
    ensures var s := Run(cfg, events);
      && s.process.Some? && s.process.value.pc.Idle? && cfg.expected[0] in s.process.value.mem.episodes
      && var e := s.process.value.mem.episodes[cfg.expected[0]];
         e.attempts == 3 && Due(cfg, s.clock, e) && NoActionRung(cfg, e.attempts)
  {
    events := FirstOutage(cfg);
    var now := 1 + cfg.gracePeriod;
    events := ClimbOne(cfg, events, 0, now);
    events := ClimbOne(cfg, events, 1, now + Delay(cfg, 1));
    events := ClimbOne(cfg, events, 2, now + Delay(cfg, 1) + Delay(cfg, 2));
  }

  // ----- stretches put together

  lemma {:induction false} StretchJoins(cfg: Config, s: System, a: seq<Event>, b: seq<Event>, start: Time, p: Pair)
    requires Fits(cfg, s) && p in cfg.expected
    ensures var s' := Steps(cfg, s, a);
      && Steps(cfg, s, a + b) == Steps(cfg, s', b)
      && Ticks(cfg, s, a + b) == Ticks(cfg, s, a) + Ticks(cfg, s', b)
      && (ServedIn(cfg, s, a + b, p) <==> ServedIn(cfg, s, a, p) || ServedIn(cfg, s', b, p))
      && (Outage(cfg, s, a + b, start, p) <==> Outage(cfg, s, a, start, p) && Outage(cfg, s', b, start, p))
    decreases |a|
  {
    if a == [] {
      assert a + b == b;
    } else {
      StepFits(cfg, s, a[0]);
      assert (a + b)[1..] == a[1..] + b;
      StretchJoins(cfg, Step(cfg, s, a[0]), a[1..], b, start, p);
    }
  }

  lemma OneEvent(cfg: Config, s: System, e: Event, start: Time, p: Pair)
    requires Fits(cfg, s) && p in cfg.expected
    ensures Ticks(cfg, s, [e]) == if Ticking(s, e) then 1 else 0
    ensures ServedIn(cfg, s, [e], p) <==> TickServes(cfg, s, e, p)
    ensures Outage(cfg, s, [e], start, p) <==>
      !e.Crash? && (Ticking(s, e) ==> start <= e.now && !SeenUp(Observed(e.sessions), p))
  {
    OneStep(cfg, s, e);
    assert [e][1..] == [];
  }

  /** A round is one tick, and serves a session if that tick does. */
  lemma RoundIsOneTick(cfg: Config, s: System, now: Time, sessions: seq<Session>, start: Time, p: Pair)
    requires Fits(cfg, s) && s.process.Some? && s.process.value.pc.Idle? && s.clock <= now && 0 < start <= now
    requires p in cfg.expected && !SeenUp(Observed(sessions), p)
    requires !Served(cfg, s.process.value.mem, TickInput(now, sessions), p)
    ensures var events := RoundOf(now, sessions, now);
      Ticks(cfg, s, events) == 1 && !ServedIn(cfg, s, events, p) && Outage(cfg, s, events, start, p)
  {
    var e, f, g := Tick(now, sessions, Saved), Execute, Record(now, Success, Saved);
    OneStep(cfg, s, e);
    OneEvent(cfg, s, e, start, p);
    var s1 := Step(cfg, s, e);
    OneStep(cfg, s1, f);
    OneEvent(cfg, s1, f, start, p);
    OneEvent(cfg, Step(cfg, s1, f), g, start, p);
    StretchJoins(cfg, s1, [f], [g], start, p);
    StretchJoins(cfg, s, [e], [f] + [g], start, p);
    assert [e] + ([f] + [g]) == RoundOf(now, sessions, now);
  }

  // ----- a session that recovers and fails again may be acted on twice in a stretch shorter than every backoff

  /** Six sessions, with a stable and a grace period together shorter than every backoff and the circuit interval. */
  predicate SixSessions(cfg: Config) {
    && ValidConfig(cfg) && |cfg.expected| == 6 && (forall i, j :: 0 <= i < j < 6 ==> cfg.expected[i] != cfg.expected[j])
    && cfg.stablePeriod + cfg.gracePeriod < cfg.circuitOpen
    && (forall k :: 0 <= k < |cfg.backoffs| ==> cfg.stablePeriod + cfg.gracePeriod < cfg.backoffs[k])
  }

  /** Retry time, start of the outage, start of stability; an attempt was made exactly if there is a retry time. */
  datatype Brief = Brief(next: nat, failing: nat, stable: nat)

  predicate Looks(e: Episode, b: Brief) {
    && e.nextRetry == b.next && e.failingSince == b.failing && e.stableSince == b.stable
    && e.attempts == if b.next == 0 then 0 else 1
  }

  predicate BriefActs(cfg: Config, now: Time, up: bool, b: Brief) {
    !up && b.failing != 0 && b.failing + cfg.gracePeriod <= now && b.next == 0
  }

  function BriefPlan(cfg: Config, now: Time, up: bool, b: Brief): Brief
    requires cfg.backoffs != []
  {
    if up then
      if b.stable == 0 then b.(stable := now)
      else if now < b.stable + cfg.stablePeriod then b else Brief(0, 0, b.stable)
    else if b.failing == 0 then Brief(b.next, now, 0)
    else if BriefActs(cfg, now, up, b) then Brief(now + cfg.backoffs[0], b.failing, 0)
    else b.(stable := 0)
  }

  predicate Sane(now: Time, b: Brief) {
    (b.next != 0 ==> now < b.next) && b.failing <= now
  }

  lemma BriefIsPlan(cfg: Config, now: Time, p: Pair, e: Episode, b: Brief, seen: Option<SessionState>, sick: bool)
    requires SixSessions(cfg) && now > 0 && Looks(e, b) && Sane(now, b)
    ensures var r := PlanEpisode(cfg, now, p, e, Child(0, 0, 0), seen, sick);
      && Looks(r.episode, BriefPlan(cfg, now, seen == Some(SessionUp), b)) && r.child == Child(0, 0, 0)
      && (r.action != RecoveryNone <==> BriefActs(cfg, now, seen == Some(SessionUp), b))
  {
  }

  predicate AllLook(cfg: Config, episodes: Episodes, bs: seq<Brief>)
    requires SixSessions(cfg)
  {
    |bs| == 6 && forall i :: 0 <= i < 6 ==> cfg.expected[i] in episodes && Looks(episodes[cfg.expected[i]], bs[i])
  }

  lemma LooksUpdated(cfg: Config, episodes: Episodes, bs: seq<Brief>, i: nat, e: Episode, b: Brief)
    requires SixSessions(cfg) && AllLook(cfg, episodes, bs) && i < 6 && Looks(e, b)
    ensures AllLook(cfg, episodes[cfg.expected[i] := e], bs[i := b])
  {
  }

  /** From i on, the sweep acts first at j, which is 6 if it does not act; bs' are the briefs after it. */
  predicate Sweeps(cfg: Config, now: Time, ups: seq<bool>, bs: seq<Brief>, bs': seq<Brief>, i: nat, j: nat)
    requires cfg.backoffs != []
  {
    && |ups| == |bs| == |bs'| == 6 && i <= j <= 6 && (forall k :: 0 <= k < 6 ==> Sane(now, bs[k]))
    && (forall k :: i <= k < j ==> !BriefActs(cfg, now, ups[k], bs[k]))
    && (j < 6 ==> BriefActs(cfg, now, ups[j], bs[j]))
    && (forall k :: 0 <= k < 6 ==> bs'[k] == if i <= k <= j then BriefPlan(cfg, now, ups[k], bs[k]) else bs[k])
  }

  predicate Reports(cfg: Config, observed: map<Pair, SessionState>, ups: seq<bool>)
    requires SixSessions(cfg)
  {
    |ups| == 6 && forall k :: 0 <= k < 6 ==> (ups[k] <==> SeenUp(observed, cfg.expected[k]))
  }

  /** The rest of the sweep, after a session without an action. */
  lemma SweepsOn(cfg: Config, now: Time, ups: seq<bool>, bs: seq<Brief>, bs': seq<Brief>, i: nat, j: nat)
    requires cfg.backoffs != [] && Sweeps(cfg, now, ups, bs, bs', i, j) && i < j
    ensures Sweeps(cfg, now, ups, bs[i := BriefPlan(cfg, now, ups[i], bs[i])], bs', i + 1, j)
  {
  }

  lemma SweepsTo(cfg: Config, now: Time, ups: seq<bool>, bs: seq<Brief>, bs': seq<Brief>, i: nat)
    requires cfg.backoffs != [] && Sweeps(cfg, now, ups, bs, bs', i, i)
    ensures bs' == if i < 6 then bs[i := BriefPlan(cfg, now, ups[i], bs[i])] else bs
  {
  }

  lemma {:induction false} BriefIsSweep(cfg: Config, now: Time, episodes: Episodes, ready: bool,
                                        observed: map<Pair, SessionState>, sick: bool, ups: seq<bool>, bs: seq<Brief>,
                                        bs': seq<Brief>, i: nat, j: nat)
    requires SixSessions(cfg) && now > 0 && Covers(cfg, episodes) && AllLook(cfg, episodes, bs)
    requires Reports(cfg, observed, ups) && Sweeps(cfg, now, ups, bs, bs', i, j)
    ensures var s := SweepFrom(cfg, now, episodes, Child(0, 0, 0), ready, observed, sick, i);
      && AllLook(cfg, s.episodes, bs') && s.child == Child(0, 0, 0)
      && (j == 6 ==> s.pending.None?)
      && (j < 6 ==> s.pending.Some? && s.pending.value.pair == Some(cfg.expected[j]))
    decreases 6 - i
  {
    if i == j {
      SweepsTo(cfg, now, ups, bs, bs', i);
    }
    if i < 6 {
      var p := cfg.expected[i];
      var r := PlanEpisode(cfg, now, p, episodes[p], Child(0, 0, 0), Seen(observed, p), sick);
      assert ups[i] <==> Seen(observed, p) == Some(SessionUp);
      assert Looks(episodes[p], bs[i]) && Sane(now, bs[i]);
      BriefIsPlan(cfg, now, p, episodes[p], bs[i], Seen(observed, p), sick);
      LooksUpdated(cfg, episodes, bs, i, r.episode, BriefPlan(cfg, now, ups[i], bs[i]));
      if i < j {
        assert r.action == RecoveryNone;
        SweepsOn(cfg, now, ups, bs, bs', i, j);
        BriefIsSweep(cfg, now, episodes[p := r.episode], ready && SeenUp(observed, p), observed, sick, ups,
                     bs[i := BriefPlan(cfg, now, ups[i], bs[i])], bs', i + 1, j);
      }
    }
  }

  /** A process between two calls whose sessions look like the briefs. */
  predicate At(cfg: Config, s: System, bs: seq<Brief>, clock: Time)
    requires SixSessions(cfg)
  {
    && s.process.Some? && s.process.value.pc.Idle? && s.clock == clock > 0
    && s.process.value.mem.child == Child(0, 0, 0) && AllLook(cfg, s.process.value.mem.episodes, bs)
  }

  lemma SameButResultsLook(cfg: Config, a: Episodes, b: Episodes, bs: seq<Brief>)
    requires SixSessions(cfg) && SameButResults(cfg, a, b) && AllLook(cfg, a, bs)
    ensures AllLook(cfg, b, bs)
  {
    forall i | 0 <= i < 6
      ensures cfg.expected[i] in b && Looks(b[cfg.expected[i]], bs[i])
    {
      assert cfg.expected[i] in cfg.expected;
    }
  }

  lemma BriefPlanned(cfg: Config, now: Time, m: Memory, observed: map<Pair, SessionState>, ups: seq<bool>,
                     bs: seq<Brief>, bs': seq<Brief>, j: nat)
    requires SixSessions(cfg) && now > 0 && Covers(cfg, m.episodes) && m.child == Child(0, 0, 0)
    requires AllLook(cfg, m.episodes, bs) && Reports(cfg, observed, ups) && Sweeps(cfg, now, ups, bs, bs', 0, j)
    ensures var plan := Plan(cfg, now, m, observed);
      && AllLook(cfg, plan.episodes, bs') && plan.child == Child(0, 0, 0)
      && (if j == 6 then plan.pending.None?
          else plan.pending.Some? && plan.pending.value.pair == Some(cfg.expected[j]))
  {
    BriefIsSweep(cfg, now, m.episodes, true, observed, AllUnhealthy(cfg, observed), ups, bs, bs', 0, j);
  }

  /** A stretch with n ticks in which the sixth session stays down and is not served. */
  predicate Unserved(cfg: Config, s: System, events: seq<Event>, start: Time, n: nat)
    requires Fits(cfg, s) && SixSessions(cfg)
  {
    var p := cfg.expected[5];
    Ticks(cfg, s, events) == n && !ServedIn(cfg, s, events, p) && Outage(cfg, s, events, start, p)
  }

  /** A round in which the sweep acts on one of the first five sessions: the sixth is not served. */
  lemma BriefRoundUnserved(cfg: Config, s: System, now: Time, sessions: seq<Session>, ups: seq<bool>, bs: seq<Brief>,
                           bs': seq<Brief>, j: nat, start: Time)
    requires Fits(cfg, s) && SixSessions(cfg) && At(cfg, s, bs, s.clock) && s.clock <= now && 0 < start <= now
    requires Reports(cfg, Observed(sessions), ups) && Sweeps(cfg, now, ups, bs, bs', 0, j) && j < 5 && !ups[5]
    ensures Unserved(cfg, s, RoundOf(now, sessions, now), start, 1)
  {
    BriefPlanned(cfg, now, s.process.value.mem, Observed(sessions), ups, bs, bs', j);
    RoundIsOneTick(cfg, s, now, sessions, start, cfg.expected[5]);
  }

  lemma BriefRoundAt(cfg: Config, s: System, now: Time, sessions: seq<Session>, ups: seq<bool>, bs: seq<Brief>,
                     bs': seq<Brief>, j: nat)
    requires Fits(cfg, s) && SixSessions(cfg) && At(cfg, s, bs, s.clock) && s.clock <= now
    requires Reports(cfg, Observed(sessions), ups) && Sweeps(cfg, now, ups, bs, bs', 0, j) && j < 5
    ensures At(cfg, Steps(cfg, s, RoundOf(now, sessions, now)), bs', now)
  {
    var m, observed := s.process.value.mem, Observed(sessions);
    BriefPlanned(cfg, now, m, observed, ups, bs, bs', j);
    Round(cfg, s, now, sessions, now);
    SameButResultsLook(cfg, Plan(cfg, now, m, observed).episodes,
                       Steps(cfg, s, RoundOf(now, sessions, now)).process.value.mem.episodes, bs');
  }

  /** One more round. */
  lemma OneMore(cfg: Config, s: System, events: seq<Event>, now: Time, ups: seq<bool>, bs: seq<Brief>, bs': seq<Brief>,
                j: nat, start: Time, n: nat) returns (events': seq<Event>)
    requires Fits(cfg, s) && SixSessions(cfg) && Unserved(cfg, s, events, start, n) && 0 < start <= now
    requires At(cfg, Steps(cfg, s, events), bs, Steps(cfg, s, events).clock) && Steps(cfg, s, events).clock <= now
    requires Sweeps(cfg, now, ups, bs, bs', 0, j) && j < 5 && !ups[5]
    ensures Unserved(cfg, s, events', start, n + 1) && At(cfg, Steps(cfg, s, events'), bs', now)
  {
    var sessions := UpSessions(cfg, ups);
    var s' := Steps(cfg, s, events);
    BriefRoundUnserved(cfg, s', now, sessions, ups, bs, bs', j, start);
    BriefRoundAt(cfg, s', now, sessions, ups, bs, bs', j);
    StretchJoins(cfg, s, events, RoundOf(now, sessions, now), start, cfg.expected[5]);
    events' := events + RoundOf(now, sessions, now);
  }

  /** A report of the sessions that are Up. */
  lemma UpSessions(cfg: Config, ups: seq<bool>) returns (sessions: seq<Session>)
    requires SixSessions(cfg) && |ups| == 6
    ensures Reports(cfg, Observed(sessions), ups)
  {
    sessions := [];
    for k := 0 to 6
      invariant forall i :: 0 <= i < 6 ==> (SeenUp(Observed(sessions), cfg.expected[i]) <==> i < k && ups[i])
    {
      var more := sessions + [Session(cfg.expected[k], SessionUp)];
      assert more[..|sessions|] == sessions;
      if ups[k] {
        sessions := more;
      }
    }
  }

  const NoneUp: seq<bool> := [false, false, false, false, false, false]
  const FirstUp: seq<bool> := [true, false, false, false, false, false]
  const FirstTwoUp: seq<bool> := [true, true, false, false, false, false]

  const Blank: Brief := Brief(0, 0, 0)
  const Down1: Brief := Brief(0, 1, 0)

  /** The time at which all six are due, and those at which two of them have been stable and have failed again. */
  function DueAt(cfg: Config): Time { 1 + cfg.gracePeriod }

  function StableAt(cfg: Config): Time { DueAt(cfg) + cfg.stablePeriod }

  function AgainAt(cfg: Config): Time { StableAt(cfg) + cfg.gracePeriod }

  /** A session acted on at a time. */
  function Acted(cfg: Config, now: Time, failing: Time): Brief
    requires cfg.backoffs != []
  {
    Brief(now + cfg.backoffs[0], failing, 0)
  }

  function SeenUpAfter(cfg: Config): Brief
    requires cfg.backoffs != []
  {
    Acted(cfg, DueAt(cfg), 1).(stable := DueAt(cfg))
  }

  function Briefs(cfg: Config, n: nat): seq<Brief>
    requires cfg.backoffs != [] && n <= 8
  {
    var t, u, v := DueAt(cfg), StableAt(cfg), AgainAt(cfg);
    var acted, up, again := Acted(cfg, t, 1), SeenUpAfter(cfg), Brief(0, u, 0);
    if n == 0 then [Blank, Blank, Blank, Blank, Blank, Blank]
    else if n == 1 then [Down1, Down1, Down1, Down1, Down1, Down1]
    else if n == 2 then [acted, Down1, Down1, Down1, Down1, Down1]
    else if n == 3 then [up, acted, Down1, Down1, Down1, Down1]
    else if n == 4 then [up, up, acted, Down1, Down1, Down1]
    else if n == 5 then [Brief(0, 0, t), Brief(0, 0, t), acted, Acted(cfg, u, 1), Down1, Down1]
    else if n == 6 then [again, again, acted, Acted(cfg, u, 1), Acted(cfg, u, 1), Down1]
    else if n == 7 then [Acted(cfg, v, u), again, acted, Acted(cfg, u, 1), Acted(cfg, u, 1), Down1]
    else [Acted(cfg, v, u), Acted(cfg, v, u), acted, Acted(cfg, u, 1), Acted(cfg, u, 1), Down1]
  }

  /** All go down at 1. When they are due the first three act, and the first two are seen Up as soon as they have. */
  lemma SweepsEarly(cfg: Config)
    requires SixSessions(cfg)
    ensures Sweeps(cfg, 1, NoneUp, Briefs(cfg, 0), Briefs(cfg, 1), 0, 6)
    ensures Sweeps(cfg, DueAt(cfg), NoneUp, Briefs(cfg, 1), Briefs(cfg, 2), 0, 0)
    ensures Sweeps(cfg, DueAt(cfg), FirstUp, Briefs(cfg, 2), Briefs(cfg, 3), 0, 1)
  {
  }

  lemma SweepsThird(cfg: Config)
    requires SixSessions(cfg)
    ensures Sweeps(cfg, DueAt(cfg), FirstTwoUp, Briefs(cfg, 3), Briefs(cfg, 4), 0, 2)
  {
  }

  /** After a stable period these two are reset while the fourth acts, and at once they fail while the fifth acts. */
  lemma SweepsMiddle(cfg: Config)
    requires SixSessions(cfg)
    ensures Sweeps(cfg, StableAt(cfg), FirstTwoUp, Briefs(cfg, 4), Briefs(cfg, 5), 0, 3)
  {
  }

  lemma SweepsFifth(cfg: Config)
    requires SixSessions(cfg)
    ensures Sweeps(cfg, StableAt(cfg), NoneUp, Briefs(cfg, 5), Briefs(cfg, 6), 0, 4)
  {
  }

  /** After a grace period they act again. */
  lemma SweepsLate(cfg: Config)
    requires SixSessions(cfg)
    ensures Sweeps(cfg, AgainAt(cfg), NoneUp, Briefs(cfg, 6), Briefs(cfg, 7), 0, 0)
    ensures Sweeps(cfg, AgainAt(cfg), NoneUp, Briefs(cfg, 7), Briefs(cfg, 8), 0, 1)
  {
  }

  lemma FreshSix(cfg: Config)
    requires SixSessions(cfg)
    ensures At(cfg, Run(cfg, [] + [Boot(1)]), Briefs(cfg, 0), 1)
  {
    RunAppend(cfg, [], Boot(1));
    assert Run(cfg, [] + [Boot(1)]) == BootStep(cfg, Initial, 1);
  }

  lemma QuietTick(cfg: Config, s: System, e: Event, bs: seq<Brief>, bs': seq<Brief>)
    requires Fits(cfg, s) && SixSessions(cfg) && At(cfg, s, bs, s.clock) && e == Tick(s.clock, [], Saved)
    requires Sweeps(cfg, s.clock, NoneUp, bs, bs', 0, 6)
    ensures At(cfg, Step(cfg, s, e), bs', s.clock)
  {
    assert Observed([]) == map[] && AllUnhealthy(cfg, Observed([]));
    BriefPlanned(cfg, s.clock, s.process.value.mem, Observed([]), NoneUp, bs, bs', 6);
  }

  /** All six go down together. */
  lemma SixGoDown(cfg: Config) returns (events: seq<Event>)
    requires SixSessions(cfg)
    ensures At(cfg, Run(cfg, events), Briefs(cfg, 1), 1)
  {
    FreshSix(cfg);
    SweepsEarly(cfg);
    QuietTick(cfg, Run(cfg, [] + [Boot(1)]), Tick(1, [], Saved), Briefs(cfg, 0), Briefs(cfg, 1));
    RunAppend(cfg, [] + [Boot(1)], Tick(1, [], Saved));
    events := [] + [Boot(1)] + [Tick(1, [], Saved)];
  }

  /** After n rounds. */
  ghost predicate Reached(cfg: Config, s: System, events: seq<Event>, n: nat, clock: Time)
    requires Fits(cfg, s) && SixSessions(cfg) && n <= 7
  {
    Unserved(cfg, s, events, DueAt(cfg), n) && At(cfg, Steps(cfg, s, events), Briefs(cfg, n + 1), clock)
  }

  lemma NextRound(cfg: Config, s: System, events: seq<Event>, n: nat, clock: Time, now: Time, ups: seq<bool>, j: nat)
    returns (events': seq<Event>)
    requires Fits(cfg, s) && SixSessions(cfg) && n < 7 && Reached(cfg, s, events, n, clock)
    requires clock <= now && DueAt(cfg) <= now && j < 5
    requires Sweeps(cfg, now, ups, Briefs(cfg, n + 1), Briefs(cfg, n + 2), 0, j) && !ups[5]
    ensures Reached(cfg, s, events', n + 1, now)
  {
    events' := OneMore(cfg, s, events, now, ups, Briefs(cfg, n + 1), Briefs(cfg, n + 2), j, DueAt(cfg), n);
  }

  lemma FirstThree(cfg: Config, s: System) returns (events: seq<Event>)
    requires Fits(cfg, s) && SixSessions(cfg) && At(cfg, s, Briefs(cfg, 1), 1)
    ensures Reached(cfg, s, events, 3, DueAt(cfg))
  {
    SweepsEarly(cfg);
    SweepsThird(cfg);
    assert Reached(cfg, s, [], 0, 1);
    events := NextRound(cfg, s, [], 0, 1, DueAt(cfg), NoneUp, 0);
    events := NextRound(cfg, s, events, 1, DueAt(cfg), DueAt(cfg), FirstUp, 1);
    events := NextRound(cfg, s, events, 2, DueAt(cfg), DueAt(cfg), FirstTwoUp, 2);
  }

  lemma NextTwo(cfg: Config, s: System, events: seq<Event>) returns (events': seq<Event>)
    requires Fits(cfg, s) && SixSessions(cfg) && Reached(cfg, s, events, 3, DueAt(cfg))
    ensures Reached(cfg, s, events', 5, StableAt(cfg))
  {
    SweepsMiddle(cfg);
    SweepsFifth(cfg);
    events' := NextRound(cfg, s, events, 3, DueAt(cfg), StableAt(cfg), FirstTwoUp, 3);
    events' := NextRound(cfg, s, events', 4, StableAt(cfg), StableAt(cfg), NoneUp, 4);
  }

  lemma LastTwo(cfg: Config, s: System, events: seq<Event>) returns (events': seq<Event>)
    requires Fits(cfg, s) && SixSessions(cfg) && Reached(cfg, s, events, 5, StableAt(cfg))
    ensures Reached(cfg, s, events', 7, AgainAt(cfg))
  {
    SweepsLate(cfg);
    events' := NextRound(cfg, s, events, 5, StableAt(cfg), AgainAt(cfg), NoneUp, 0);
    events' := NextRound(cfg, s, events', 6, AgainAt(cfg), AgainAt(cfg), NoneUp, 1);
  }

  /** The stretch has to be shorter than a stable and a grace period together: with six sessions, and both together
      shorter than every backoff and the circuit interval, there is a run with seven ticks that ends exactly that long
      after the last session became due, which is down throughout and is not served by any tick. Two of the others
      recover for a stable period, fail again, and are acted on a second time. */
  lemma StretchHasToBeShort(cfg: Config) returns (before: seq<Event>, events: seq<Event>, start: Time)
    requires SixSessions(cfg)
    ensures var s, p := Run(cfg, before), cfg.expected[5];
      && s.process.Some? && s.clock <= start && Outage(cfg, s, events, start, p)
      && Run(cfg, before + events).clock == start + cfg.stablePeriod + cfg.gracePeriod
      && Due(cfg, start, s.process.value.mem.episodes[p])
      && !NoActionRung(cfg, s.process.value.mem.episodes[p].attempts)
      && Ticks(cfg, s, events) > |cfg.expected| && !ServedIn(cfg, s, events, p)
  {
    start := DueAt(cfg);
    before := SixGoDown(cfg);
    var s := Run(cfg, before);
    events := FirstThree(cfg, s);
    events := NextTwo(cfg, s, events);
    events := LastTwo(cfg, s, events);
    RunSteps(cfg, before, events);
    assert Looks(s.process.value.mem.episodes[cfg.expected[5]], Briefs(cfg, 1)[5]);
  }
}
