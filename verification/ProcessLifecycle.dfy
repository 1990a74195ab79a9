/** The child process controller: Start, Stop, Restart and the waiting goroutine, whose critical sections
    interleave in any order. A started command is named by the number of starts before it. */
module ProcessLifecycle {
  import opened Common

  type Cmd = nat

  /** The fields under the mutex. */
  datatype Fields = Fields(cmd: Option<Cmd>, stopping: Option<Cmd>)

  /** How a command ended: with status 0, by a signal, or with an error. */
  datatype Ending = Clean | Terminated | Killed | Failed

  /** The goroutine of a started command: in Wait, past Wait, past its critical section, past the send on `done`, past
      its close. */
  datatype Waiter = Waiting | Exited | Cleared | Sent | Closed

  /** A caller of Stop or Restart. `seen` is the number of starts when its first critical section ran. */
  datatype Caller =
    | Outside
    | AwaitingDone(target: Cmd, seen: nat, restart: bool)
    | StopReturned(seen: nat, restart: bool, ok: bool)

  /** `endings` and `requested` are history; `buffers` holds what was sent on a `done` and not received yet. */
  datatype System = System(
    fields: Fields, starts: nat, waiters: map<Cmd, Waiter>, buffers: map<Cmd, Ending>, callers: map<nat, Caller>,
    requested: set<Cmd>, endings: map<Cmd, Ending>)

  datatype Event =
    | Start(forked: bool)
    | BeginStop(caller: nat, restart: bool)
    | LeaveByDone(caller: nat, killed: bool)  // after SIGKILL, or else after SIGTERM alone
    | GiveUp(caller: nat)
    | RestartStart(caller: nat, forked: bool)
    | Exit(cmd: Cmd, ending: Ending)
    | Clear(cmd: Cmd)
    | Send(cmd: Cmd)
    | Close(cmd: Cmd)

  const Initial: System := System(Fields(None, None), 0, map[], map[], map[], {}, map[])

  // ----- the critical sections

  /** Start: refused while a command is set; a failed fork changes nothing. */
  function StartSection(f: Fields, id: Cmd, forked: bool): Fields {
    if f.cmd.Some? || !forked then f else f.(cmd := Some(id))
  }

  function StopSection(f: Fields): Fields {
    if f.cmd.Some? then f.(stopping := f.cmd) else f
  }

  function WaitSection(f: Fields, c: Cmd): Fields {
    Fields(if f.cmd == Some(c) then None else f.cmd, if f.stopping == Some(c) then None else f.stopping)
  }

  function CallerOf(s: System, t: nat): Caller {
    if t in s.callers then s.callers[t] else Outside
  }

  function Started(s: System, forked: bool): System {
    var fields := StartSection(s.fields, s.starts, forked);
    if fields == s.fields then s
    else s.(fields := fields, starts := s.starts + 1, waiters := s.waiters[s.starts := Waiting])
  }

  /** A receive on `done`: what was sent, or nothing from a channel that is closed and empty; else it blocks. */
  predicate CanReceive(s: System, c: Cmd) {
    c in s.buffers || (c in s.waiters && s.waiters[c] == Closed)
  }

  /** Stop takes an ending for no error: none received, a clean one, or one by the signal it sent. */
  predicate NoError(s: System, c: Cmd, killed: bool) {
    c in s.buffers ==> s.buffers[c] == Clean || s.buffers[c] == if killed then Killed else Terminated
  }

  /** One atomic step; an event that does not fit changes nothing. */
  function Step(s: System, e: Event): System {
    match e
    case Start(forked) => Started(s, forked)
    case BeginStop(t, restart) =>
      if CallerOf(s, t) != Outside then s
      else if s.fields.cmd.None? then s.(callers := s.callers[t := StopReturned(s.starts, restart, true)])
      else s.(fields := StopSection(s.fields), requested := s.requested + {s.fields.cmd.value},
              callers := s.callers[t := AwaitingDone(s.fields.cmd.value, s.starts, restart)])
    case LeaveByDone(t, killed) =>
      var c := CallerOf(s, t);
      if c.AwaitingDone? && CanReceive(s, c.target)
      then s.(callers := s.callers[t := StopReturned(c.seen, c.restart, NoError(s, c.target, killed))],
              buffers := s.buffers - {c.target}) else s
    case GiveUp(t) =>
      var c := CallerOf(s, t);
      if c.AwaitingDone?
      then s.(callers := s.callers[t := StopReturned(c.seen, c.restart, false)]) else s
    case RestartStart(t, forked) =>
      var c := CallerOf(s, t);
      if !c.StopReturned? then s
      else if !c.restart || !c.ok then s.(callers := s.callers[t := Outside])
      else Started(s.(callers := s.callers[t := Outside]), forked)
    case Exit(c, ending) =>
      if c in s.waiters && s.waiters[c] == Waiting
      then s.(waiters := s.waiters[c := Exited], endings := s.endings[c := ending]) else s
    case Clear(c) =>
      if c in s.waiters && s.waiters[c] == Exited
      then s.(fields := WaitSection(s.fields, c), waiters := s.waiters[c := Cleared]) else s
    case Send(c) =>
      if c in s.waiters && s.waiters[c] == Cleared && c in s.endings
      then s.(waiters := s.waiters[c := Sent], buffers := s.buffers[c := s.endings[c]]) else s
    case Close(c) =>
      if c in s.waiters && s.waiters[c] == Sent then s.(waiters := s.waiters[c := Closed]) else s
  }

  function Run(events: seq<Event>): System {
    if events == [] then Initial else Step(Run(events[..|events| - 1]), events[|events| - 1])
  }

  // ----- invariant

  predicate Unreaped(s: System, c: Cmd) {
    c in s.waiters && s.waiters[c] == Waiting
  }

  /** The goroutine of the command has sent its ending. */
  predicate HasSent(s: System, c: Cmd) {
    c in s.waiters && (s.waiters[c] == Sent || s.waiters[c] == Closed)
  }

  predicate CallerOk(s: System, c: Caller) {
    match c
    case Outside => true
    case AwaitingDone(target, seen, _) => target in s.waiters && seen == target + 1 <= s.starts
    case StopReturned(seen, _, ok) =>
      && seen <= s.starts
      // whoever returned without an error saw the field empty, so a command set now started later
      && (ok && s.fields.cmd.Some? ==> seen <= s.fields.cmd.value)
  }

  ghost predicate Inv(s: System) {
    && (forall c :: c in s.waiters ==> c < s.starts)
    // the field names exactly the command whose goroutine has not cleared it
    && (forall c :: c in s.waiters && (s.waiters[c] == Waiting || s.waiters[c] == Exited) <==> s.fields.cmd == Some(c))
    && (s.fields.stopping.Some? <==> s.fields.cmd.Some? && s.fields.cmd.value in s.requested)
    && (s.fields.stopping.Some? ==> s.fields.stopping == s.fields.cmd)
    && (forall c :: c in s.requested ==> c in s.waiters)
    && (forall t :: t in s.callers ==> CallerOk(s, s.callers[t]))
    // nothing starts while a command is set, so a set command is the latest start
    && (s.fields.cmd.Some? ==> s.fields.cmd.value + 1 == s.starts)
    && (forall c :: c in s.buffers ==> HasSent(s, c))
  }

  lemma StartedKeepsInv(s: System, forked: bool)
    requires Inv(s)
    ensures Inv(Started(s, forked))
  {
  }

  lemma CallerKeepsInv(s: System, e: Event)
    requires Inv(s) && (e.BeginStop? || e.LeaveByDone? || e.GiveUp?)
    ensures Inv(Step(s, e))
  {
  }

  lemma GoroutineKeepsInv(s: System, e: Event)
    requires Inv(s) && (e.Exit? || e.Clear? || e.Send? || e.Close?)
    ensures Inv(Step(s, e))
  {
  }

  lemma StepKeepsInv(s: System, e: Event)
    requires Inv(s)
    ensures Inv(Step(s, e))
  {
    match e
    case Start(forked) => StartedKeepsInv(s, forked);
    case RestartStart(t, forked) => StartedKeepsInv(s.(callers := s.callers[t := Outside]), forked);
    case BeginStop(_, _) => CallerKeepsInv(s, e);
    case LeaveByDone(_, _) => CallerKeepsInv(s, e);
    case GiveUp(_) => CallerKeepsInv(s, e);
    case _ => GoroutineKeepsInv(s, e);
  }

  /** What is in a channel is how its command ended. */
  ghost predicate DoneOk(s: System, c: Cmd) {
    && (c in s.waiters ==> c < s.starts) && (c in s.endings <==> c in s.waiters && s.waiters[c] != Waiting)
    && (c in s.buffers ==> c in s.endings && s.buffers[c] == s.endings[c] && HasSent(s, c))
  }

  lemma StepKeepsDone(s: System, e: Event, c: Cmd)
    requires DoneOk(s, c)
    ensures DoneOk(Step(s, e), c)
  {
  }

  lemma {:induction false} RunKeepsDone(events: seq<Event>, c: Cmd)
    ensures DoneOk(Run(events), c)
  {
    if events != [] {
      RunKeepsDone(events[..|events| - 1], c);
      StepKeepsDone(Run(events[..|events| - 1]), events[|events| - 1], c);
    }
  }

  lemma {:induction false} RunKeepsInv(events: seq<Event>)
    ensures Inv(Run(events))
  {
    if events != [] {
      RunKeepsInv(events[..|events| - 1]);
      StepKeepsInv(Run(events[..|events| - 1]), events[|events| - 1]);
    }
  }

  /** Under every interleaving, at most one started child has not been reaped, and it is the one the field names. */
  lemma AtMostOneChild(events: seq<Event>, c: Cmd, d: Cmd)
    requires Unreaped(Run(events), c) && Unreaped(Run(events), d)
    ensures c == d && Run(events).fields.cmd == Some(c)
  {
    RunKeepsInv(events);
  }

  /** `stopping` is unset or equals `cmd`, and it is set exactly while a command that some Stop asked for is set. */
  lemma StoppingNamesTheCommand(events: seq<Event>)
    ensures var f := Run(events).fields;
      && (f.stopping.Some? ==> f.stopping == f.cmd)
      && (f.stopping.Some? <==> f.cmd.Some? && f.cmd.value in Run(events).requested)
  {
    RunKeepsInv(events);
  }

  /** A Stop that leaves through `done` finds its target already cleared. */
  lemma DoneMeansCleared(events: seq<Event>, t: nat, killed: bool)
    requires CallerOf(Run(events), t).AwaitingDone?
    requires Step(Run(events), LeaveByDone(t, killed)) != Run(events)
    ensures var target := CallerOf(Run(events), t).target;
      Run(events).fields.cmd != Some(target) && Run(events).fields.stopping != Some(target)
  {
    RunKeepsInv(events);
  }

  /** The Start of a Restart whose Stop succeeded is refused with "already running" only if another Start came between:
      more commands have been started than when its Stop began. */
  lemma RefusedOnlyAfterAnotherStart(events: seq<Event>, t: nat)
    requires var c := CallerOf(Run(events), t); c.StopReturned? && c.restart && c.ok
    requires Run(events).fields.cmd.Some?
    ensures CallerOf(Run(events), t).seen < Run(events).starts
  {
    RunKeepsInv(events);
  }

  /** The waiting goroutine reports an expected exit exactly when some Stop had picked its command. */
  lemma ExpectedExitIffRequested(events: seq<Event>, c: Cmd)
    requires c in Run(events).waiters && Run(events).waiters[c] == Exited
    ensures Run(events).fields.stopping == Some(c) <==> c in Run(events).requested
  {
    RunKeepsInv(events);
  }

  // ----- what Stop and Restart return

  /** The Stop leaves through `done` now, and returns an error. */
  ghost predicate TellsError(s: System, t: nat, killed: bool) {
    var c := CallerOf(s, t);
    && c.AwaitingDone? && CanReceive(s, c.target)
    && var after := CallerOf(Step(s, LeaveByDone(t, killed)), t);
       after.StopReturned? && !after.ok
  }

  /** A Stop that leaves through `done` returns an error exactly if it is the first to receive the ending of its target
      and that ending is neither clean nor by the signal the Stop sent. */
  lemma StopErrorIff(events: seq<Event>, t: nat, killed: bool)
    requires var c := CallerOf(Run(events), t); c.AwaitingDone? && CanReceive(Run(events), c.target)
    ensures var s := Run(events);
      var target := CallerOf(s, t).target;
      && target in s.endings
      && (TellsError(s, t, killed) <==>
            target in s.buffers && s.endings[target] != Clean
            && s.endings[target] != if killed then Killed else Terminated)
  {
    RunKeepsDone(events, CallerOf(Run(events), t).target);
  }

  /** How many Stops returned an error for the ending of a command. */
  ghost function ErrorsTold(events: seq<Event>, c: Cmd): nat {
    if events == [] then 0
    else
      ErrorsTold(events[..|events| - 1], c)
      + if ErrorFor(Run(events[..|events| - 1]), events[|events| - 1], c) then 1 else 0
  }

  ghost predicate ErrorFor(s: System, e: Event, c: Cmd) {
    e.LeaveByDone? && TellsError(s, e.caller, e.killed) && CallerOf(s, e.caller).target == c
  }

  lemma ErrorTakesEnding(s: System, e: Event, c: Cmd)
    requires DoneOk(s, c)
    ensures ErrorFor(s, e, c) ==> c in s.buffers && c !in Step(s, e).buffers && HasSent(Step(s, e), c)
    ensures c in Step(s, e).buffers || !HasSent(Step(s, e), c) ==> c in s.buffers || !HasSent(s, c)
  {
  }

  /** However many Stops wait for one command, at most one of them returns an error for how it ended: the others find
      the channel closed and report success. */
  lemma {:induction false} ErrorToldOnce(events: seq<Event>, c: Cmd)
    ensures ErrorsTold(events, c) <= 1
    ensures c in Run(events).buffers || !HasSent(Run(events), c) ==> ErrorsTold(events, c) == 0
  {
    if events != [] {
      ErrorToldOnce(events[..|events| - 1], c);
      RunKeepsDone(events[..|events| - 1], c);
      ErrorTakesEnding(Run(events[..|events| - 1]), events[|events| - 1], c);
    }
  }

  /** After its Stop, a Restart starts a command exactly if the Stop returned no error, no command is set and the fork
      succeeds; else nothing changes but the caller. */
  lemma RestartStartsIff(s: System, t: nat, forked: bool)
    requires CallerOf(s, t).StopReturned?
    ensures var c := CallerOf(s, t);
      var s' := Step(s, RestartStart(t, forked));
      && CallerOf(s', t) == Outside
      && if c.restart && c.ok && forked && s.fields.cmd.None?
         then s'.fields.cmd == Some(s.starts) && s'.starts == s.starts + 1 && s.starts in s'.waiters
         else s'.fields == s.fields && s'.starts == s.starts && s'.waiters == s.waiters
  {
  }

  /** A Restart while no command is set does not wait and starts one. */
  lemma RestartWithoutChild(s: System, t: nat)
    requires CallerOf(s, t) == Outside && s.fields.cmd.None?
    ensures var s' := Step(Step(s, BeginStop(t, true)), RestartStart(t, true));
      s'.fields.cmd == Some(s.starts) && s'.fields.stopping == s.fields.stopping
  {
    RestartStartsIff(Step(s, BeginStop(t, true)), t, true);
  }

  // ----- the controller object, one method per critical section

  class ProcessController {
    var cmd: Option<Cmd>
    var stopping: Option<Cmd>
    var started: nat

    function State(): Fields
      reads this
    {
      Fields(cmd, stopping)
    }

    constructor ()
      ensures State() == Initial.fields && started == 0
    {
      cmd, stopping, started := None, None, 0;
    }

    /** The body of Start under the lock; a refusal and a failed fork are both errors. */
    method Start(forked: bool) returns (ok: bool)
      modifies this
      ensures State() == StartSection(old(State()), old(started), forked)
      ensures ok == (old(cmd).None? && forked) && started == old(started) + if ok then 1 else 0
      ensures cmd == (if ok then Some(old(started)) else old(cmd)) && stopping == old(stopping)
    {
      if cmd != None {
        return false;
      }
      if !forked {
        return false;
      }
      cmd := Some(started);
      started := started + 1;
      return true;
    }

    /** The locked part of Stop; returns the command to signal and wait for. */
    method BeginStop() returns (target: Option<Cmd>)
      modifies this`stopping
      ensures State() == StopSection(old(State())) && target == old(cmd)
      ensures stopping == if cmd.Some? then cmd else old(stopping)
    {
      target := cmd;
      if target != None {
        stopping := target;
      }
    }

    /** The locked part of wait; returns whether the exit was asked for. */
    method Clear(c: Cmd) returns (expectedStop: bool)
      modifies this`cmd, this`stopping
      ensures State() == WaitSection(old(State()), c) && expectedStop == (old(stopping) == Some(c))
      ensures cmd == (if old(cmd) == Some(c) then None else old(cmd))
      ensures stopping == if expectedStop then None else old(stopping)
    {
      expectedStop := stopping == Some(c);
      if cmd == Some(c) {
        cmd := None;
      }
      if expectedStop {
        stopping := None;
      }
    }
  }
}
