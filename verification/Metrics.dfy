/** The metrics reporter: counters derived from the stream of supervisor reports. */
module Metrics {
  import opened Common
  import opened Recovery
  import opened RecoveryRuns
  import opened RecoveryPhases
  import opened SupervisorCalls

  datatype Label = Label(action: Action, success: bool)

  /** The reporter's own state; `counts` holds the recovery attempts per label. */
  datatype Counters = Counters(
    seenAttempts: map<Pair, nat>, counts: map<Label, nat>,
    initializedChild: bool, seenChildRestarts: nat, childRestarts: nat,
    zeroSince: Time, sessionZero: int, up: nat)

  const Fresh: Counters := Counters(map[], map[], false, 0, 0, 0, 0, 0)

  function Count(c: map<Label, nat>, l: Label): nat {
    if l in c then c[l] else 0
  }

  /** What one session of a report adds to the attempts. */
  function Observe(seen: map<Pair, nat>, counts: map<Label, nat>, e: Episode): map<Label, nat> {
    if e.pair in seen && e.attempts > seen[e.pair] && e.lastAction != RecoveryNone then
      var l := Label(e.lastAction, e.lastResult == Success);
      counts[l := Count(counts, l) + (e.attempts - seen[e.pair])]
    else counts
  }

  function SeenAfter(sessions: seq<Episode>, seen: map<Pair, nat>): map<Pair, nat> {
    if sessions == [] then seen
    else
      var e := sessions[|sessions| - 1];
      SeenAfter(sessions[..|sessions| - 1], seen)[e.pair := e.attempts]
  }

  function CountsAfter(sessions: seq<Episode>, seen: map<Pair, nat>, counts: map<Label, nat>): map<Label, nat> {
    if sessions == [] then counts
    else
      var init := sessions[..|sessions| - 1];
      Observe(SeenAfter(init, seen), CountsAfter(init, seen, counts), sessions[|sessions| - 1])
  }

  function UpCount(sessions: seq<Episode>): nat {
    if sessions == [] then 0
    else UpCount(sessions[..|sessions| - 1]) + if sessions[|sessions| - 1].state == SessionUp then 1 else 0
  }

  function UpIndices(sessions: seq<Episode>): set<int> {
    set i | 0 <= i < |sessions| && sessions[i].state == SessionUp
  }

  lemma UpIndicesJoin(sessions: seq<Episode>, e: Episode)
    ensures UpIndices(sessions + [e]) == UpIndices(sessions) + if e.state == SessionUp then {|sessions|} else {}
    ensures |UpIndices(sessions + [e])| == |UpIndices(sessions)| + if e.state == SessionUp then 1 else 0
  {
    var n := if e.state == SessionUp then {|sessions|} else {};
    assert UpIndices(sessions + [e]) == UpIndices(sessions) + n;
    assert |UpIndices(sessions) + n| == |UpIndices(sessions)| + |n|;
  }

  /** The count is the number of sessions that are Up; it is 0 exactly if none is. */
  lemma {:induction false} UpCountIsNumberUp(sessions: seq<Episode>)
    ensures UpCount(sessions) == |set i | 0 <= i < |sessions| && sessions[i].state == SessionUp|
    ensures UpCount(sessions) == 0 <==> forall e :: e in sessions ==> e.state != SessionUp
  {
    UpCountIsSize(sessions);
    assert forall e :: e in sessions && e.state == SessionUp ==>
      exists i :: 0 <= i < |sessions| && sessions[i] == e && i in UpIndices(sessions);
    if i :| i in UpIndices(sessions) {
      assert sessions[i] in sessions;
    }
  }

  lemma {:induction false} UpCountIsSize(sessions: seq<Episode>)
    ensures UpCount(sessions) == |UpIndices(sessions)|
  {
    if sessions != [] {
      var init := sessions[..|sessions| - 1];
      UpCountIsSize(init);
      UpIndicesJoin(init, sessions[|sessions| - 1]);
      assert sessions == init + [sessions[|sessions| - 1]];
    }
  }

  /** Sessions are reported, and none of them is Up. */
  predicate NoneReportedUp(status: Status) {
    status.sessions != [] && forall e :: e in status.sessions ==> e.state != SessionUp
  }

  predicate ZeroUp(status: Status) {
    status.sessions != [] && UpCount(status.sessions) == 0
  }

  function Updated(c: Counters, now: Time, status: Status): Counters {
    var restarts := if c.initializedChild && status.childRestarts > c.seenChildRestarts
      then c.childRestarts + (status.childRestarts - c.seenChildRestarts) else c.childRestarts;
    var zeroSince := if !ZeroUp(status) then 0 else if c.zeroSince == 0 then now else c.zeroSince;
    Counters(SeenAfter(status.sessions, c.seenAttempts), CountsAfter(status.sessions, c.seenAttempts, c.counts),
             true, status.childRestarts, restarts, zeroSince,
             if ZeroUp(status) then now - zeroSince else 0, UpCount(status.sessions))
  }

  class MetricsReporter {
    var seenAttempts: map<Pair, nat>
    var recoveryAttempts: map<Label, nat>
    var seenChildRestarts: nat
    var initializedChild: bool
    var childRestarts: nat
    var zeroSince: Time
    var sessionZero: int
    var upSessions: nat

    function State(): Counters
      reads this
    {
      Counters(seenAttempts, recoveryAttempts, initializedChild, seenChildRestarts, childRestarts,
               zeroSince, sessionZero, upSessions)
    }

    constructor ()
      ensures State() == Fresh
    {
      seenAttempts, recoveryAttempts := map[], map[];
      seenChildRestarts, initializedChild, childRestarts := 0, false, 0;
      zeroSince, sessionZero, upSessions := 0, 0, 0;
    }

    /** The loop over the sessions of a report. */
    method CountSessions(sessions: seq<Episode>) returns (up: nat)
      modifies this`seenAttempts, this`recoveryAttempts
      ensures up == UpCount(sessions)
      ensures seenAttempts == SeenAfter(sessions, old(seenAttempts))
      ensures recoveryAttempts == CountsAfter(sessions, old(seenAttempts), old(recoveryAttempts))
    {
      up := 0;
      for i := 0 to |sessions|
        invariant up == UpCount(sessions[..i])
        invariant seenAttempts == SeenAfter(sessions[..i], old(seenAttempts))
        invariant recoveryAttempts == CountsAfter(sessions[..i], old(seenAttempts), old(recoveryAttempts))
      {
        assert sessions[..i + 1][..i] == sessions[..i];
        var session := sessions[i];
        if session.state == SessionUp {
          up := up + 1;
        }
        var key := session.pair;
        if key in seenAttempts && session.attempts > seenAttempts[key] && session.lastAction != RecoveryNone {
          var kind := Label(session.lastAction, session.lastResult == Success);
          var more := session.attempts - seenAttempts[key];
          recoveryAttempts := recoveryAttempts[kind := Count(recoveryAttempts, kind) + more];
        }
        seenAttempts := seenAttempts[key := session.attempts];
      }
      assert sessions[..|sessions|] == sessions;
    }

    method Update(now: Time, status: Status)
      modifies this
      ensures State() == Updated(old(State()), now, status)
    {
      var up := CountSessions(status.sessions);
      upSessions := up;
      if |status.sessions| != 0 && up == 0 {
        if zeroSince == 0 {
          zeroSince := now;
        }
        sessionZero := now - zeroSince;
      } else {
        zeroSince := 0;
        sessionZero := 0;
      }
      if initializedChild && status.childRestarts > seenChildRestarts {
        childRestarts := childRestarts + (status.childRestarts - seenChildRestarts);
      }
      seenChildRestarts := status.childRestarts;
      initializedChild := true;
    }
  }

  // ----- one Update after each Reconcile

  /** A Reconcile at `now` and the Update that follows it at `at`. */
  datatype Round = Round(now: Time, answers: Answers, at: Time)

  datatype Watch = Watch(mem: Memory, status: Status, counters: Counters)

  function AfterRound(cfg: Config, w: Watch, r: Round): (w': Watch)
    requires ValidConfig(cfg) && EpisodesFit(cfg, w.mem.episodes)
    ensures EpisodesFit(cfg, w'.mem.episodes)
  {
    ReconcileFits(cfg, r.now, w.mem, None, r.answers);
    var o := ReconcileOutcome(cfg, r.now, w.mem, None, r.answers);
    var status := ReconcileStatus(cfg, r.now, w.mem, w.status, r.answers, o.executed, o.mem);
    Watch(o.mem, status, Updated(w.counters, r.at, status))
  }

  /** The first Update at `at` reports the memory m as it is; then come the rounds. */
  function Watched(cfg: Config, m: Memory, at: Time, rounds: seq<Round>): (w: Watch)
    requires ValidConfig(cfg) && EpisodesFit(cfg, m.episodes)
    ensures EpisodesFit(cfg, w.mem.episodes)
  {
    if rounds == [] then
      var status := InitialStatus(cfg, m, at);
      Watch(m, status, Updated(Fresh, at, status))
    else AfterRound(cfg, Watched(cfg, m, at, rounds[..|rounds| - 1]), rounds[|rounds| - 1])
  }

  /** The action a round schedules for a session, with whether it ran and succeeded. */
  function ScheduledLabel(cfg: Config, m: Memory, r: Round): Option<Label>
    requires ValidConfig(cfg) && EpisodesFit(cfg, m.episodes)
  {
    if r.answers.status.None? then None
    else
      var pending := TickPending(cfg, r.now, m, r.answers.status.value);
      if pending.None? || pending.value.pair.None? then None
      else Some(Label(pending.value.action, Accepted(cfg, r.answers.save) && r.answers.result == Success))
  }

  /** How many of the rounds scheduled an action with this label. */
  function Tally(cfg: Config, m: Memory, at: Time, rounds: seq<Round>, l: Label): nat
    requires ValidConfig(cfg) && EpisodesFit(cfg, m.episodes)
  {
    if rounds == [] then 0
    else
      var init := rounds[..|rounds| - 1];
      var scheduled := ScheduledLabel(cfg, Watched(cfg, m, at, init).mem, rounds[|rounds| - 1]);
      Tally(cfg, m, at, init, l) + if scheduled == Some(l) then 1 else 0
  }

  /** How a sweep changes the attempts of one session: one more if it was chosen, else no more. */
  lemma {:induction false} SweepAttempts(cfg: Config, now: Time, episodes: Episodes, child: Child, ready: bool,
                                         observed: map<Pair, SessionState>, sick: bool, i: nat, p: Pair)
    requires ValidConfig(cfg) && Covers(cfg, episodes) && i <= |cfg.expected| && p in cfg.expected
    ensures var s := SweepFrom(cfg, now, episodes, child, ready, observed, sick, i);
      && s.episodes[p].attempts <= episodes[p].attempts + 1
      && (s.pending.Some? && s.pending.value.pair == Some(p) ==>
        && s.episodes[p].attempts == episodes[p].attempts + 1
        && s.episodes[p].lastAction == s.pending.value.action != RecoveryNone
        && s.episodes[p].lastResult == InProgress)
      && (!(s.pending.Some? && s.pending.value.pair == Some(p)) ==> s.episodes[p].attempts <= episodes[p].attempts)
      && (s.pending.Some? && s.pending.value.pair == Some(p) ==> !SeenUp(observed, p))
    decreases |cfg.expected| - i
  {
    if i < |cfg.expected| {
      var q := cfg.expected[i];
      var r := PlanEpisode(cfg, now, q, episodes[q], child, Seen(observed, q), sick);
      PlanAttempts(cfg, now, q, episodes[q], child, Seen(observed, q), sick);
      if r.action == RecoveryNone {
        SweepAttempts(cfg, now, episodes[q := r.episode], r.child, ready && SeenUp(observed, q), observed, sick, i + 1,
                      p);
      }
    }
  }

  lemma PlanAttempts(cfg: Config, now: Time, p: Pair, e: Episode, child: Child, seen: Option<SessionState>, sick: bool)
    requires ValidConfig(cfg)
    ensures var r := PlanEpisode(cfg, now, p, e, child, seen, sick);
      && (r.action == RecoveryNone ==> r.episode.attempts <= e.attempts)
      && (r.action == RecoveryNone && seen != Some(SessionUp) ==> r.episode.attempts == e.attempts)
      && (r.action != RecoveryNone ==>
        && seen != Some(SessionUp) && r.episode.attempts == e.attempts + 1
        && r.episode.lastAction == r.action && r.episode.lastResult == InProgress)
  {
  }

  /** What a round does to the sessions: only the scheduled one, if any, has one more attempt. */
  ghost predicate RoundEffect(cfg: Config, m: Memory, m': Memory, chosen: Option<Pair>, l: Option<Label>) {
    && EpisodesFit(cfg, m.episodes) && EpisodesFit(cfg, m'.episodes)
    && (chosen.Some? <==> l.Some?) && (chosen.Some? ==> chosen.value in cfg.expected)
    && (forall p :: p in cfg.expected && chosen != Some(p) ==> m'.episodes[p].attempts <= m.episodes[p].attempts)
    && (chosen.Some? ==>
        var e := m'.episodes[chosen.value];
        && e.attempts == m.episodes[chosen.value].attempts + 1 && e.lastAction != RecoveryNone
        && l == Some(Label(e.lastAction, e.lastResult == Success)))
  }

  lemma TickEffectOnSessions(cfg: Config, now: Time, m: Memory, sessions: seq<Session>, p: Pair)
    requires ValidConfig(cfg) && EpisodesFit(cfg, m.episodes) && p in cfg.expected
    ensures var m1 := TickMemory(cfg, now, m, sessions);
      var pending := TickPending(cfg, now, m, sessions);
      if pending.Some? && pending.value.pair == Some(p) then
        && m1.episodes[p].attempts == m.episodes[p].attempts + 1
        && m1.episodes[p].lastAction == pending.value.action != RecoveryNone && m1.episodes[p].lastResult == InProgress
      else m1.episodes[p].attempts <= m.episodes[p].attempts
  {
    var observed := Observed(sessions);
    SweepAttempts(cfg, now, m.episodes, m.child, true, observed, AllUnhealthy(cfg, observed), 0, p);
  }

  lemma RoundHasEffect(cfg: Config, w: Watch, r: Round) returns (chosen: Option<Pair>)
    requires ValidConfig(cfg) && EpisodesFit(cfg, w.mem.episodes)
    ensures RoundEffect(cfg, w.mem, AfterRound(cfg, w, r).mem, chosen, ScheduledLabel(cfg, w.mem, r))
  {
    RoundMemory(cfg, w, r);
    chosen := OutcomeHasEffect(cfg, w.mem, r);
  }

  lemma RoundMemory(cfg: Config, w: Watch, r: Round)
    requires ValidConfig(cfg) && EpisodesFit(cfg, w.mem.episodes)
    ensures AfterRound(cfg, w, r).mem == ReconcileOutcome(cfg, r.now, w.mem, None, r.answers).mem
  {
  }

  lemma OutcomeHasEffect(cfg: Config, m: Memory, r: Round) returns (chosen: Option<Pair>)
    requires ValidConfig(cfg) && EpisodesFit(cfg, m.episodes)
    ensures var m' := ReconcileOutcome(cfg, r.now, m, None, r.answers).mem;
      RoundEffect(cfg, m, m', chosen, ScheduledLabel(cfg, m, r))
  {
    chosen := None;
    ReconcileFits(cfg, r.now, m, None, r.answers);
    if r.answers.status.Some? {
      var m' := ReconcileOutcome(cfg, r.now, m, None, r.answers).mem;
      var pending := TickPending(cfg, r.now, m, r.answers.status.value);
      PlanFits(cfg, r.now, m, Observed(r.answers.status.value));
      chosen := if pending.Some? then pending.value.pair else None;
      forall p | p in cfg.expected
        ensures SessionEffect(m.episodes[p], m'.episodes[p],
                              if chosen == Some(p) then ScheduledLabel(cfg, m, r) else None)
      {
        RoundOnSession(cfg, r.now, m, r.answers, p);
      }
    }
  }

  /** A session that was scheduled has one more attempt and tells its label; any other has no more attempts. */
  predicate SessionEffect(e: Episode, e': Episode, l: Option<Label>) {
    if l.Some?
    then && e'.attempts == e.attempts + 1 && e'.lastAction != RecoveryNone
         && l.value == Label(e'.lastAction, e'.lastResult == Success)
    else e'.attempts <= e.attempts
  }

  lemma RoundOnSession(cfg: Config, now: Time, m: Memory, a: Answers, p: Pair)
    requires ValidConfig(cfg) && EpisodesFit(cfg, m.episodes) && a.status.Some? && p in cfg.expected
    ensures var o := ReconcileOutcome(cfg, now, m, None, a);
      var pending := TickPending(cfg, now, m, a.status.value);
      && p in o.mem.episodes
      && SessionEffect(m.episodes[p], o.mem.episodes[p],
           if pending.Some? && pending.value.pair == Some(p)
           then Some(Label(pending.value.action, Accepted(cfg, a.save) && a.result == Success)) else None)
  {
    OutcomeOfSession(cfg, now, m, a, p);
    TickEffectOnSessions(cfg, now, m, a.status.value, p);
  }

  /** What one Reconcile leaves of a session: what its tick planned, with the result if its action was executed. */
  lemma OutcomeOfSession(cfg: Config, now: Time, m: Memory, a: Answers, p: Pair)
    requires ValidConfig(cfg) && EpisodesFit(cfg, m.episodes) && a.status.Some? && p in cfg.expected
    ensures var o := ReconcileOutcome(cfg, now, m, None, a);
      var planned := TickMemory(cfg, now, m, a.status.value).episodes[p];
      var pending := TickPending(cfg, now, m, a.status.value);
      var executed := pending.Some? && pending.value.pair == Some(p) && Accepted(cfg, a.save);
      && p in o.mem.episodes
      && o.mem.episodes[p] == planned.(lastResult := if executed then a.result else planned.lastResult)
  {
    PlanFits(cfg, now, m, Observed(a.status.value));
  }

  /** The round executed a restart of the child, for a session or as a probe, and it succeeded. */
  predicate RestartedIn(cfg: Config, m: Memory, r: Round)
    requires ValidConfig(cfg) && EpisodesFit(cfg, m.episodes)
  {
    && r.answers.status.Some? && Accepted(cfg, r.answers.save) && r.answers.result == Success
    && var pending := TickPending(cfg, r.now, m, r.answers.status.value);
       pending.Some? && pending.value.action == RecoveryRestartChild
  }

  /** How many of the rounds did. */
  function RestartTally(cfg: Config, m: Memory, at: Time, rounds: seq<Round>): nat
    requires ValidConfig(cfg) && EpisodesFit(cfg, m.episodes)
  {
    if rounds == [] then 0
    else
      var init := rounds[..|rounds| - 1];
      var more := RestartedIn(cfg, Watched(cfg, m, at, init).mem, rounds[|rounds| - 1]);
      RestartTally(cfg, m, at, init) + if more then 1 else 0
  }

  lemma RestartsGrowByOne(cfg: Config, w: Watch, r: Round)
    requires ValidConfig(cfg) && EpisodesFit(cfg, w.mem.episodes)
    ensures AfterRound(cfg, w, r).mem.childRestarts
      == w.mem.childRestarts + if RestartedIn(cfg, w.mem, r) then 1 else 0
  {
    RoundMemory(cfg, w, r);
    OutcomeRestarts(cfg, w.mem, r);
  }

  lemma OutcomeRestarts(cfg: Config, m: Memory, r: Round)
    requires ValidConfig(cfg) && EpisodesFit(cfg, m.episodes)
    ensures ReconcileOutcome(cfg, r.now, m, None, r.answers).mem.childRestarts
      == m.childRestarts + if RestartedIn(cfg, m, r) then 1 else 0
  {
    if r.answers.status.Some? {
      TickKeepsRestarts(cfg, r.now, m, r.answers.status.value);
    }
  }

  lemma TickKeepsRestarts(cfg: Config, now: Time, m: Memory, sessions: seq<Session>)
    requires ValidConfig(cfg) && Covers(cfg, m.episodes)
    ensures TickMemory(cfg, now, m, sessions).childRestarts == m.childRestarts
  {
  }

  /** The attempts seen so far are those of the memory. */
  ghost predicate UpToDate(cfg: Config, m: Memory, seen: map<Pair, nat>)
    requires EpisodesFit(cfg, m.episodes)
  {
    forall p :: p in cfg.expected ==> p in seen && seen[p] == m.episodes[p].attempts
  }

  lemma {:induction false} SeenListed(pairs: seq<Pair>, episodes: Episodes, seen: map<Pair, nat>, p: Pair)
    requires forall q :: q in pairs ==> q in episodes && episodes[q].pair == q
    ensures var s := SeenAfter(Listed(pairs, episodes), seen);
      && (p in pairs ==> p in s && s[p] == episodes[p].attempts)
      && (p !in pairs ==> (p in s <==> p in seen) && (p in seen ==> s[p] == seen[p]))
  {
    if pairs != [] {
      var init := pairs[..|pairs| - 1];
      SeenListed(init, episodes, seen, p);
      assert Listed(pairs, episodes)[..|pairs| - 1] == Listed(init, episodes);
      assert p in pairs <==> p in init || p == pairs[|pairs| - 1];
    }
  }

  lemma ObserveCounts(cfg: Config, m: Memory, m': Memory, seen: map<Pair, nat>, counts: map<Label, nat>,
                      chosen: Option<Pair>, l: Option<Label>, k: Label, p: Pair, before: bool)
    requires RoundEffect(cfg, m, m', chosen, l) && p in cfg.expected && p in seen
    requires seen[p] == if before then m'.episodes[p].attempts else m.episodes[p].attempts
    ensures Count(Observe(seen, counts, m'.episodes[p]), k)
      == Count(counts, k) + if !before && chosen == Some(p) && l == Some(k) then 1 else 0
  {
  }

  lemma CountsSplit(pairs: seq<Pair>, episodes: Episodes, seen: map<Pair, nat>, counts: map<Label, nat>)
    requires pairs != [] && forall q :: q in pairs ==> q in episodes
    ensures var init := pairs[..|pairs| - 1];
      CountsAfter(Listed(pairs, episodes), seen, counts)
      == Observe(SeenAfter(Listed(init, episodes), seen), CountsAfter(Listed(init, episodes), seen, counts),
                 episodes[pairs[|pairs| - 1]])
  {
    assert Listed(pairs, episodes)[..|pairs| - 1] == Listed(pairs[..|pairs| - 1], episodes);
  }

  /** Counting a report adds one to the label of the scheduled session, once, and nothing else. */
  lemma {:induction false} CountsListed(cfg: Config, pairs: seq<Pair>, m: Memory, m': Memory, seen: map<Pair, nat>,
                                        counts: map<Label, nat>, chosen: Option<Pair>, l: Option<Label>, k: Label)
    requires RoundEffect(cfg, m, m', chosen, l) && UpToDate(cfg, m, seen)
    requires forall q :: q in pairs ==> q in cfg.expected
    ensures Count(CountsAfter(Listed(pairs, m'.episodes), seen, counts), k)
      == Count(counts, k) + if chosen.Some? && chosen.value in pairs && l == Some(k) then 1 else 0
  {
    if pairs != [] {
      var init := pairs[..|pairs| - 1];
      var p := pairs[|pairs| - 1];
      CountsListed(cfg, init, m, m', seen, counts, chosen, l, k);
      SeenListed(init, m'.episodes, seen, p);
      CountsSplit(pairs, m'.episodes, seen, counts);
      ObserveCounts(cfg, m, m', SeenAfter(Listed(init, m'.episodes), seen),
                    CountsAfter(Listed(init, m'.episodes), seen, counts), chosen, l, k, p, p in init);
      assert chosen.Some? ==> (chosen.value in pairs <==> chosen.value in init || chosen.value == p);
    }
  }

  ghost predicate Agrees(cfg: Config, m0: Memory, w: Watch)
    requires ValidConfig(cfg) && EpisodesFit(cfg, m0.episodes) && EpisodesFit(cfg, w.mem.episodes)
  {
    && UpToDate(cfg, w.mem, w.counters.seenAttempts)
    && w.counters.initializedChild && w.counters.seenChildRestarts == w.mem.childRestarts
    && m0.childRestarts <= w.mem.childRestarts
    && w.counters.childRestarts == w.mem.childRestarts - m0.childRestarts
  }

  lemma StatusIsReport(cfg: Config, w: Watch, r: Round)
    requires ValidConfig(cfg) && EpisodesFit(cfg, w.mem.episodes)
    ensures var w' := AfterRound(cfg, w, r);
      w'.status.sessions == Listed(cfg.expected, w'.mem.episodes) && w'.status.childRestarts == w'.mem.childRestarts
  {
  }

  lemma RoundCounts(cfg: Config, m0: Memory, w: Watch, r: Round, k: Label)
    requires ValidConfig(cfg) && EpisodesFit(cfg, m0.episodes) && EpisodesFit(cfg, w.mem.episodes)
    requires Agrees(cfg, m0, w)
    ensures var w' := AfterRound(cfg, w, r);
      && Agrees(cfg, m0, w')
      && Count(w'.counters.counts, k)
         == Count(w.counters.counts, k) + if ScheduledLabel(cfg, w.mem, r) == Some(k) then 1 else 0
  {
    var w' := AfterRound(cfg, w, r);
    var chosen := RoundHasEffect(cfg, w, r);
    RestartsGrowByOne(cfg, w, r);
    StatusIsReport(cfg, w, r);
    CountsListed(cfg, cfg.expected, w.mem, w'.mem, w.counters.seenAttempts, w.counters.counts, chosen,
                 ScheduledLabel(cfg, w.mem, r), k);
    forall p | p in cfg.expected
      ensures p in w'.counters.seenAttempts && w'.counters.seenAttempts[p] == w'.mem.episodes[p].attempts
    {
      SeenListed(cfg.expected, w'.mem.episodes, w.counters.seenAttempts, p);
    }
  }

  lemma {:induction false} FirstUpdateCountsNothing(pairs: seq<Pair>, episodes: Episodes, seen: map<Pair, nat>)
    requires forall q :: q in pairs ==> q in episodes && episodes[q].pair == q
    requires forall q :: q in seen ==> q in episodes && seen[q] == episodes[q].attempts
    ensures CountsAfter(Listed(pairs, episodes), seen, map[]) == map[]
  {
    if pairs != [] {
      var init := pairs[..|pairs| - 1];
      FirstUpdateCountsNothing(init, episodes, seen);
      SeenListed(init, episodes, seen, pairs[|pairs| - 1]);
      assert Listed(pairs, episodes)[..|pairs| - 1] == Listed(init, episodes);
    }
  }

  /** Conservation. After any number of rounds of Reconcile and Update, the counter of every action and result equals
      the number of rounds that scheduled such an action since the first Update, stability resets included; and the
      child-restart counter is the number of rounds that restarted the child with success. */
  lemma {:induction false} CountersAgree(cfg: Config, m: Memory, at: Time, rounds: seq<Round>, k: Label)
    requires ValidConfig(cfg) && EpisodesFit(cfg, m.episodes)
    ensures var w := Watched(cfg, m, at, rounds);
      && Agrees(cfg, m, w)
      && Count(w.counters.counts, k) == Tally(cfg, m, at, rounds, k)
      && w.counters.childRestarts == w.mem.childRestarts - m.childRestarts == RestartTally(cfg, m, at, rounds)
  {
    if rounds == [] {
      FirstUpdateCountsNothing(cfg.expected, m.episodes, map[]);
      forall p | p in cfg.expected
        ensures var s := SeenAfter(Listed(cfg.expected, m.episodes), map[]); p in s && s[p] == m.episodes[p].attempts
      {
        SeenListed(cfg.expected, m.episodes, map[], p);
      }
    } else {
      var init := rounds[..|rounds| - 1];
      CountersAgree(cfg, m, at, init, k);
      RoundCounts(cfg, m, Watched(cfg, m, at, init), rounds[|rounds| - 1], k);
      RestartsGrowByOne(cfg, Watched(cfg, m, at, init), rounds[|rounds| - 1]);
    }
  }

  // ----- failed queries in a row

  /** How many of the last rounds, without a gap, had a failed status query. */
  function FailedInARow(rounds: seq<Round>): (n: nat)
    ensures n <= |rounds| && forall k :: |rounds| - n <= k < |rounds| ==> rounds[k].answers.status.None?
    ensures n < |rounds| ==> rounds[|rounds| - n - 1].answers.status.Some?
  {
    if rounds == [] || rounds[|rounds| - 1].answers.status.Some? then 0
    else FailedInARow(rounds[..|rounds| - 1]) + 1
  }

  /** The failures a supervisor reports are those since its last status query that succeeded, and the error is that of
      the last one. */
  lemma {:induction false} ControlFailuresInARow(cfg: Config, m: Memory, at: Time, rounds: seq<Round>)
    requires ValidConfig(cfg) && EpisodesFit(cfg, m.episodes)
    ensures var status := Watched(cfg, m, at, rounds).status;
      && status.controlFailures == FailedInARow(rounds)
      && status.lastControlError == if FailedInARow(rounds) == 0 then "" else rounds[|rounds| - 1].answers.statusError
  {
    if rounds != [] {
      ControlFailuresInARow(cfg, m, at, rounds[..|rounds| - 1]);
      RoundFailures(cfg, Watched(cfg, m, at, rounds[..|rounds| - 1]), rounds[|rounds| - 1]);
    }
  }

  lemma RoundFailures(cfg: Config, w: Watch, r: Round)
    requires ValidConfig(cfg) && EpisodesFit(cfg, w.mem.episodes)
    ensures var status := AfterRound(cfg, w, r).status;
      && status.controlFailures == (if r.answers.status.None? then w.status.controlFailures + 1 else 0)
      && status.lastControlError == if r.answers.status.None? then r.answers.statusError else ""
  {
  }

  // ----- the time without any session Up

  /** The reports of a sequence of updates. */
  datatype Sample = Sample(at: Time, status: Status)

  function Sampled(samples: seq<Sample>): Counters {
    if samples == [] then Fresh
    else Updated(Sampled(samples[..|samples| - 1]), samples[|samples| - 1].at, samples[|samples| - 1].status)
  }

  // ----- updates that come less often than actions

  /** All attempts counted, whatever the action and its result. */
  function Total(c: map<Label, nat>): nat {
    Of(c, RecoveryNone) + Of(c, RecoveryReplay) + Of(c, RecoveryReset) + Of(c, RecoveryRestartChild)
  }

  function Of(c: map<Label, nat>, action: Action): nat {
    Count(c, Label(action, true)) + Count(c, Label(action, false))
  }

  lemma ObserveTotal(seen: map<Pair, nat>, counts: map<Label, nat>, e: Episode)
    requires e.pair in seen && seen[e.pair] <= e.attempts
    requires seen[e.pair] < e.attempts ==> e.lastAction != RecoveryNone
    ensures Total(Observe(seen, counts, e)) == Total(counts) + e.attempts - seen[e.pair]
  {
    var l := Label(e.lastAction, e.lastResult == Success);
    assert forall k :: k != l ==> Count(Observe(seen, counts, e), k) == Count(counts, k);
  }

  predicate OnlyOf(s: Sample, p: Pair) {
    |s.status.sessions| == 1 && s.status.sessions[0].pair == p
  }

  /** From one report to the next the attempts and the child's restarts do not go back. */
  predicate Rises(s: Sample, s': Sample) {
    && s.status.childRestarts <= s'.status.childRestarts
    && |s.status.sessions| == |s'.status.sessions| == 1
    && var e, e' := s.status.sessions[0], s'.status.sessions[0];
       e.attempts <= e'.attempts && (e.attempts < e'.attempts ==> e'.lastAction != RecoveryNone)
  }

  /** What the counters make of the reports from the first to the last. */
  predicate CountedAll(c: Counters, first: Sample, last: Sample, p: Pair)
    requires OnlyOf(first, p) && OnlyOf(last, p)
  {
    && c.seenAttempts == map[p := last.status.sessions[0].attempts]
    && c.initializedChild && c.seenChildRestarts == last.status.childRestarts
    && first.status.sessions[0].attempts + Total(c.counts) == last.status.sessions[0].attempts
    && first.status.childRestarts + c.childRestarts == last.status.childRestarts
  }

  lemma OneReport(c: Counters, s: Sample)
    requires |s.status.sessions| == 1
    ensures var e, c' := s.status.sessions[0], Updated(c, s.at, s.status);
      && c'.seenAttempts == c.seenAttempts[e.pair := e.attempts]
      && c'.counts == Observe(c.seenAttempts, c.counts, e)
  {
    var init := s.status.sessions[..|s.status.sessions| - 1];
    assert init == [];
    assert CountsAfter(init, c.seenAttempts, c.counts) == c.counts;
    assert CountsAfter(s.status.sessions, c.seenAttempts, c.counts)
           == Observe(c.seenAttempts, c.counts, s.status.sessions[0]);
  }

  lemma NextReport(c: Counters, first: Sample, s: Sample, s': Sample, p: Pair)
    requires OnlyOf(first, p) && OnlyOf(s, p) && OnlyOf(s', p) && Rises(s, s') && CountedAll(c, first, s, p)
    ensures CountedAll(Updated(c, s'.at, s'.status), first, s', p)
  {
    OneReport(c, s');
    ObserveTotal(c.seenAttempts, c.counts, s'.status.sessions[0]);
  }

  /** However few updates there are, no attempt on a session and no restart of the child is lost: all that happen from
      the first update on are counted. */
  lemma {:induction false} SparseUpdatesLoseNothing(samples: seq<Sample>, p: Pair)
    requires samples != [] && forall i :: 0 <= i < |samples| ==> OnlyOf(samples[i], p)
    requires forall i :: 0 < i < |samples| ==> Rises(samples[i - 1], samples[i])
    ensures CountedAll(Sampled(samples), samples[0], samples[|samples| - 1], p)
  {
    var init, last := samples[..|samples| - 1], samples[|samples| - 1];
    if init == [] {
      OneReport(Fresh, last);
    } else {
      SparseUpdatesLoseNothing(init, p);
      NextReport(Sampled(init), samples[0], init[|init| - 1], last, p);
    }
  }

  /** The first sample of the run of zero-Up samples that ends the sequence. */
  function ZeroRunStart(samples: seq<Sample>): (n: nat)
    ensures n <= |samples|
    ensures forall k :: n <= k < |samples| ==> NoneReportedUp(samples[k].status)
    ensures n > 0 ==> !NoneReportedUp(samples[n - 1].status)
  {
    if samples == [] || !NoneReportedUp(samples[|samples| - 1].status) then |samples|
    else ZeroRunStart(samples[..|samples| - 1])
  }

  /** The session-zero gauge is the time since the current run of updates with no session Up began, or 0; the gauge of
      sessions that are Up is their number in the last report. */
  lemma {:induction false} SessionZeroIsRunLength(samples: seq<Sample>)
    requires samples != [] && forall k :: 0 <= k < |samples| ==> samples[k].at > 0
    ensures var n := ZeroRunStart(samples);
      && Sampled(samples).zeroSince == (if n == |samples| then 0 else samples[n].at)
      && Sampled(samples).sessionZero == if n == |samples| then 0 else samples[|samples| - 1].at - samples[n].at
    ensures var reported := samples[|samples| - 1].status.sessions;
      Sampled(samples).up == |set i | 0 <= i < |reported| && reported[i].state == SessionUp|
  {
    var init := samples[..|samples| - 1];
    UpCountIsNumberUp(samples[|samples| - 1].status.sessions);
    if init != [] {
      SessionZeroIsRunLength(init);
    }
  }
}
