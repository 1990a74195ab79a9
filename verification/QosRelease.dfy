/** Deleting a QoS policy: informer caches, event handlers, the update work queue and its workers,
    interleaved in any order. A policy in use is dropped from the queue without an error, and only a later
    label change brings it back. */
module QosRelease {
  import opened Common

  type Name = string

  datatype Binding = BindEip | BindNatGw | BindOther

  /** A cached policy; `uid` tells re-created policies of one name apart. */
  datatype Policy = Policy(uid: nat, deleting: bool, finalizer: bool, binding: Binding)

  /** An EIP or a NAT gateway. */
  datatype Resource = Resource(kind: Binding, id: nat)

  /** A worker that took a key from the queue. */
  datatype Worker =
    | Begun                     // about to read the policy from the cache
    | Checking(policy: Policy)  // read it as deleting, about to list its users
    | Decided(inUse: bool)      // listed them
    | Elsewhere                 // not found, or not deleting: nothing to release
    | Failing                   // will return an error

  /** A label change whose handler has not run yet. */
  datatype Change = Change(from: Option<Name>, to: Option<Name>)

  datatype System = System(
    policies: map<Name, Policy>, labels: map<Resource, Name>,
    policyEvents: set<Name>, labelEvents: set<Change>,
    queue: set<Name>, delayed: set<Name>, workers: map<Name, Worker>,
    released: set<nat>)

  datatype Event =
    | CachePolicy(key: Name, policy: Option<Policy>)       // the informer updates the cache; a handler call is due
    | CacheLabel(resource: Resource, to: Option<Name>)
    | PolicyHandler(key: Name)
    | LabelHandler(change: Change)
    | Enqueue(key: Name)                                   // any other enqueue
    | Expire(key: Name)                                    // a rate-limited retry becomes due
    | Take(key: Name)
    | ReadPolicy(key: Name, ok: bool)
    | ListUsers(key: Name, ok: bool)
    | Release(key: Name, ok: bool)                         // remove the finalizer of the cached policy
    | Finish(key: Name)
    | Restart                                              // a new controller re-lists everything

  function LabelOf(labels: map<Resource, Name>, r: Resource): Option<Name> {
    if r in labels then Some(labels[r]) else None
  }

  /** The lister's answer: some resource of the policy's kind carries its name. */
  predicate InUse(labels: map<Resource, Name>, key: Name, binding: Binding) {
    binding != BindOther && exists r :: r in labels && r.kind == binding && labels[r] == key
  }

  /** A label change releases the policy it names no longer. */
  predicate Releases(c: Change, key: Name) {
    c.from == Some(key) && c.from != c.to
  }

  function WorkerOf(s: System, key: Name): Option<Worker> {
    if key in s.workers then Some(s.workers[key]) else None
  }

  function SetWorker(s: System, key: Name, w: Worker): System {
    s.(workers := s.workers[key := w])
  }

  /** Removing the finalizer: nothing to do if the cached policy is gone or has none; a missing object is success. */
  function ReleaseStep(s: System, key: Name, ok: bool): System {
    if key !in s.policies || !s.policies[key].finalizer then SetWorker(s, key, Elsewhere)
    else if ok then SetWorker(s, key, Elsewhere).(released := s.released + {s.policies[key].uid})
    else SetWorker(s, key, Failing)
  }

  function Step(s: System, e: Event): System {
    match e
    case CachePolicy(key, policy) =>
      if policy.None? then s.(policies := s.policies - {key})
      else s.(policies := s.policies[key := policy.value],
              policyEvents := if policy.value.deleting then s.policyEvents + {key} else s.policyEvents)
    case CacheLabel(r, to) =>
      s.(labels := if to.None? then s.labels - {r} else s.labels[r := to.value],
         labelEvents := s.labelEvents + {Change(LabelOf(s.labels, r), to)})
    case PolicyHandler(key) =>
      if key in s.policyEvents then s.(policyEvents := s.policyEvents - {key}, queue := s.queue + {key}) else s
    case LabelHandler(c) =>
      if c !in s.labelEvents then s
      else if c.from.Some? && c.from != c.to
      then s.(labelEvents := s.labelEvents - {c}, queue := s.queue + {c.from.value})
      else s.(labelEvents := s.labelEvents - {c})
    case Enqueue(key) => s.(queue := s.queue + {key})
    case Expire(key) =>
      if key in s.delayed then s.(delayed := s.delayed - {key}, queue := s.queue + {key}) else s
    case Take(key) =>
      if key in s.queue && key !in s.workers then SetWorker(s, key, Begun).(queue := s.queue - {key}) else s
    case ReadPolicy(key, ok) =>
      if WorkerOf(s, key) != Some(Begun) then s
      else if key !in s.policies then SetWorker(s, key, if ok then Elsewhere else Failing)
      else if !ok then SetWorker(s, key, Failing)
      else SetWorker(s, key, if s.policies[key].deleting then Checking(s.policies[key]) else Elsewhere)
    case ListUsers(key, ok) =>
      if key in s.workers && s.workers[key].Checking? then
        if ok || s.workers[key].policy.binding.BindOther?
        then SetWorker(s, key, Decided(InUse(s.labels, key, s.workers[key].policy.binding)))
        else SetWorker(s, key, Failing)
      else s
    case Release(key, ok) =>
      if WorkerOf(s, key) == Some(Decided(false)) then ReleaseStep(s, key, ok) else s
    case Finish(key) =>
      if key in s.workers && (s.workers[key].Elsewhere? || s.workers[key] == Decided(true))
      then s.(workers := s.workers - {key})
      else if key in s.workers && s.workers[key].Failing?
      then s.(workers := s.workers - {key}, delayed := s.delayed + {key})
      else s
    case Restart =>
      s.(policyEvents := (set k | k in s.policies && s.policies[k].deleting), labelEvents := {},
         queue := {}, delayed := {}, workers := map[])
  }

  const Initial: System := System(map[], map[], {}, {}, {}, {}, map[], {})

  function Run(events: seq<Event>): System {
    if events == [] then Initial else Step(Run(events[..|events| - 1]), events[|events| - 1])
  }

  // ----- no lost wake-up

  /** The cached policy is being deleted and its finalizer has not been removed. */
  predicate Stuck(s: System, key: Name) {
    key in s.policies && s.policies[key].deleting && s.policies[key].finalizer && s.policies[key].uid !in s.released
  }

  /** The key will be handled again, whatever the labels are. */
  predicate Coming(s: System, key: Name) {
    key in s.queue || key in s.delayed || key in s.policyEvents
  }

  /** A worker that has yet to decide, or that decided to release or to fail. */
  predicate Working(s: System, key: Name) {
    key in s.workers && !s.workers[key].Elsewhere? && s.workers[key] != Decided(true)
  }

  ghost predicate ReleasePending(s: System, key: Name) {
    exists c :: c in s.labelEvents && Releases(c, key)
  }

  ghost predicate Awake(s: System, key: Name)
    requires key in s.policies
  {
    Coming(s, key) || Working(s, key) || ReleasePending(s, key) || InUse(s.labels, key, s.policies[key].binding)
  }

  ghost predicate KeyInv(s: System, key: Name) {
    Stuck(s, key) ==>
      && Awake(s, key)
      // a worker's snapshot has the cached policy's binding, or the key is coming again
      && (key in s.workers && s.workers[key].Checking? ==>
            s.policies[key].binding == s.workers[key].policy.binding || Coming(s, key))
  }

  ghost predicate Inv(s: System) {
    forall key :: KeyInv(s, key)
  }

  lemma CacheLabelKeeps(s: System, r: Resource, to: Option<Name>, key: Name)
    requires KeyInv(s, key)
    ensures KeyInv(Step(s, CacheLabel(r, to)), key)
  {
    var s' := Step(s, CacheLabel(r, to));
    if Stuck(s', key) {
      if ReleasePending(s, key) {
        var c :| c in s.labelEvents && Releases(c, key);
        assert c in s'.labelEvents;
      } else if InUse(s.labels, key, s.policies[key].binding) {
        var u :| u in s.labels && u.kind == s.policies[key].binding && s.labels[u] == key;
        if u == r && to != Some(key) {
          assert Change(Some(key), to) in s'.labelEvents && Releases(Change(Some(key), to), key);
        } else {
          assert u in s'.labels && s'.labels[u] == key;
        }
      }
    }
  }

  lemma LabelHandlerKeeps(s: System, c: Change, key: Name)
    requires KeyInv(s, key)
    ensures KeyInv(Step(s, LabelHandler(c)), key)
  {
    if Stuck(s, key) && ReleasePending(s, key) {
      var d :| d in s.labelEvents && Releases(d, key);
      assert d in Step(s, LabelHandler(c)).labelEvents || d == c;
    }
  }

  /** Everything KeyInv depends on is the same. */
  lemma FrameKeeps(s: System, s': System, key: Name)
    requires KeyInv(s, key)
    requires s'.labels == s.labels && s'.labelEvents == s.labelEvents
    requires s'.released >= s.released && Coming(s', key) == Coming(s, key)
    requires key in s'.policies ==> key in s.policies && s'.policies[key] == s.policies[key]
    requires WorkerOf(s', key) == WorkerOf(s, key)
    ensures KeyInv(s', key)
  {
  }

  lemma OtherKeyKeeps(s: System, e: Event, key: Name)
    requires KeyInv(s, key) && !e.CacheLabel? && !e.LabelHandler? && !e.Restart? && e.key != key
    ensures KeyInv(Step(s, e), key)
  {
    FrameKeeps(s, Step(s, e), key);
  }

  lemma OwnKeyKeeps(s: System, e: Event)
    requires !e.CacheLabel? && !e.LabelHandler? && !e.Restart?
    requires KeyInv(s, e.key)
    ensures KeyInv(Step(s, e), e.key)
  {
    if Stuck(s, e.key) && ReleasePending(s, e.key) {
      var c :| c in s.labelEvents && Releases(c, e.key);
      assert c in Step(s, e).labelEvents;
    }
  }

  lemma StepKeepsInv(s: System, e: Event)
    requires Inv(s)
    ensures Inv(Step(s, e))
  {
    forall key
      ensures KeyInv(Step(s, e), key)
    {
      assert KeyInv(s, key);
      match e
      case CacheLabel(r, to) => CacheLabelKeeps(s, r, to, key);
      case LabelHandler(c) => LabelHandlerKeeps(s, c, key);
      case Restart =>
      case _ =>
        if e.key == key { OwnKeyKeeps(s, e); } else { OtherKeyKeeps(s, e, key); }
    }
  }

  lemma {:induction false} RunKeepsInv(events: seq<Event>)
    ensures Inv(Run(events))
  {
    if events != [] {
      RunKeepsInv(events[..|events| - 1]);
      StepKeepsInv(Run(events[..|events| - 1]), events[|events| - 1]);
    }
  }

  /** No lost wake-up. In every reachable state, a policy that is being deleted and still has its finalizer is queued or
      about to be, in the hands of a worker that will not drop it, covered by a label change whose handler has yet to
      run, or still labelled by a resource of its binding type. */
  lemma NoLostWakeUp(events: seq<Event>, key: Name)
    requires Stuck(Run(events), key)
    ensures var s := Run(events);
      || key in s.queue || key in s.delayed || key in s.policyEvents
      || (key in s.workers && !s.workers[key].Elsewhere? && s.workers[key] != Decided(true))
      || (exists c :: c in s.labelEvents && c.from == Some(key) && c.from != c.to)
      || (s.policies[key].binding != BindOther
          && exists r :: r in s.labels && r.kind == s.policies[key].binding && s.labels[r] == key)
  {
    RunKeepsInv(events);
    var s := Run(events);
    assert KeyInv(s, key);
    if ReleasePending(s, key) {
      var c :| c in s.labelEvents && Releases(c, key);
      assert c.from == Some(key) && c.from != c.to;
    }
  }

  predicate Quiet(s: System) {
    s.queue == {} && s.delayed == {} && s.policyEvents == {} && s.labelEvents == {} && s.workers == map[]
  }

  /** When nothing is left to do, a policy whose finalizer was not removed is still in use. */
  lemma QuietMeansInUse(events: seq<Event>, key: Name)
    requires Quiet(Run(events)) && Stuck(Run(events), key)
    ensures var s := Run(events);
      && s.policies[key].binding != BindOther
      && exists r :: r in s.labels && r.kind == s.policies[key].binding && s.labels[r] == key
  {
    RunKeepsInv(events);
    assert KeyInv(Run(events), key);
  }

  // ----- the finalizer goes only when no user was seen

  /** After n events the cache held policy p under the key, marked for deletion. */
  predicate CachedAt(events: seq<Event>, n: nat, key: Name, p: Policy)
    requires n <= |events|
  {
    var s := Run(events[..n]);
    key in s.policies && s.policies[key] == p && p.deleting
  }

  /** After n events a worker that had read p looked for users of the key and found none. */
  predicate UnusedAt(events: seq<Event>, n: nat, key: Name, p: Policy)
    requires n <= |events|
  {
    var s := Run(events[..n]);
    && key in s.workers && s.workers[key] == Checking(p)
    && (p.binding != BindOther ==> forall r :: r in s.labels && s.labels[r] == key ==> r.kind != p.binding)
  }

  /** A resource of kind b was given the label after the first n events. */
  ghost predicate LabelledSince(events: seq<Event>, n: nat, key: Name, b: Binding) {
    exists k :: n <= k < |events| && events[k].CacheLabel? && events[k].to == Some(key) && events[k].resource.kind == b
  }

  /** A worker's snapshot was in the cache. */
  lemma {:induction false} SnapshotWasCached(events: seq<Event>, key: Name, p: Policy) returns (n: nat)
    requires WorkerOf(Run(events), key) == Some(Checking(p))
    ensures n <= |events| && CachedAt(events, n, key, p)
  {
    var init := events[..|events| - 1];
    if WorkerOf(Run(init), key) == Some(Checking(p)) {
      n := SnapshotWasCached(init, key, p);
      assert events[..n] == init[..n];
    } else {
      n := |events| - 1;
      NewSnapshot(Run(init), events[|events| - 1], key, p);
    }
  }

  lemma NewSnapshot(s: System, e: Event, key: Name, p: Policy)
    requires WorkerOf(Step(s, e), key) == Some(Checking(p)) && WorkerOf(s, key) != Some(Checking(p))
    ensures key in s.policies && s.policies[key] == p && p.deleting
  {
  }

  lemma NewDecision(s: System, e: Event, key: Name)
    requires WorkerOf(Step(s, e), key) == Some(Decided(false)) && WorkerOf(s, key) != Some(Decided(false))
    ensures e.ListUsers? && key in s.workers && s.workers[key].Checking? && Step(s, e).labels == s.labels
    ensures !InUse(s.labels, key, s.workers[key].policy.binding)
  {
  }

  /** A resource in use after a step was in use before, or the step labelled it. */
  lemma NewUser(s: System, e: Event, key: Name, b: Binding)
    requires InUse(Step(s, e).labels, key, b) && !InUse(s.labels, key, b)
    ensures e.CacheLabel? && e.to == Some(key) && e.resource.kind == b
  {
    var r :| r in Step(s, e).labels && r.kind == b && Step(s, e).labels[r] == key;
    assert !(r in s.labels && s.labels[r] == key);
  }

  /** If use after all events but the last is explained by a later labelling, so is use after all of them. */
  lemma StillExplained(events: seq<Event>, n: nat, key: Name, b: Binding)
    requires events != [] && n <= |events| - 1
    requires var init := events[..|events| - 1]; InUse(Run(init).labels, key, b) ==> LabelledSince(init, n, key, b)
    ensures InUse(Run(events).labels, key, b) ==> LabelledSince(events, n, key, b)
  {
    var init, e := events[..|events| - 1], events[|events| - 1];
    if InUse(Run(events).labels, key, b) {
      if InUse(Run(init).labels, key, b) {
        var k :| n <= k < |init| && init[k].CacheLabel? && init[k].to == Some(key) && init[k].resource.kind == b;
        assert events[k] == init[k];
      } else {
        NewUser(Run(init), e, key, b);
        assert events[|events| - 1] == e;
      }
    }
  }

  lemma {:induction false} DecisionWasSeen(events: seq<Event>, key: Name) returns (m: nat, n: nat, p: Policy)
    requires WorkerOf(Run(events), key) == Some(Decided(false))
    ensures m <= n <= |events| && CachedAt(events, m, key, p) && UnusedAt(events, n, key, p)
    ensures InUse(Run(events).labels, key, p.binding) ==> LabelledSince(events, n, key, p.binding)
  {
    var init := events[..|events| - 1];
    var e := events[|events| - 1];
    if WorkerOf(Run(init), key) == Some(Decided(false)) {
      m, n, p := DecisionWasSeen(init, key);
      assert events[..n] == init[..n] && events[..m] == init[..m];
      StillExplained(events, n, key, p.binding);
    } else {
      NewDecision(Run(init), e, key);
      n, p := |events| - 1, Run(init).workers[key].policy;
      m := SnapshotWasCached(init, key, p);
      assert events[..m] == init[..m];
    }
  }

  lemma ReleaseNeedsDecision(s: System, e: Event)
    requires Step(s, e).released != s.released
    ensures e.Release? && WorkerOf(s, e.key) == Some(Decided(false))
    ensures e.key in s.policies && Step(s, e).released == s.released + {s.policies[e.key].uid}
  {
  }

  /** A step that removes a finalizer removes that of the cached policy of its key. The worker had read a policy p of
      that name that was being deleted, and later listed its users and found that no cached resource of p's binding
      type carried the name; a resource that carries it at the time of removal was labelled after that listing. */
  lemma ReleasedOnlyWhenUnused(events: seq<Event>, e: Event) returns (m: nat, n: nat, p: Policy)
    requires Step(Run(events), e).released != Run(events).released
    ensures e.Release? && e.key in Run(events).policies
    ensures Step(Run(events), e).released == Run(events).released + {Run(events).policies[e.key].uid}
    ensures m <= n <= |events| && CachedAt(events, m, e.key, p) && UnusedAt(events, n, e.key, p)
    ensures var labels := Run(events).labels;
      forall r :: r in labels && r.kind == p.binding != BindOther && labels[r] == e.key ==>
        LabelledSince(events, n, e.key, p.binding)
  {
    ReleaseNeedsDecision(Run(events), e);
    m, n, p := DecisionWasSeen(events, e.key);
  }

  // ----- the handlers, as they change the queue

  /** Whether reading the policy, listing its users and the patch succeed; a missing policy is no failure. */
  datatype Replies = Replies(get: bool, list: bool, patch: bool)

  datatype Handling = Handling(ok: bool, released: set<nat>)

  /** Handling a key in one go. */
  function Handled(policies: map<Name, Policy>, labels: map<Resource, Name>, released: set<nat>, key: Name,
                   r: Replies): Handling {
    if !r.get then Handling(false, released)
    else if key !in policies || !policies[key].deleting then Handling(true, released)
    else
      var p := policies[key];
      if p.binding != BindOther && !r.list then Handling(false, released)
      else if InUse(labels, key, p.binding) || !p.finalizer then Handling(true, released)
      else if !r.patch then Handling(false, released)
      else Handling(true, released + {p.uid})
  }

  /** The handler is the worker's steps: taken without interruption they release what the handler releases, and leave
      the key to be retried exactly if the handler fails. */
  lemma HandlerIsWorker(s: System, key: Name, r: Replies)
    requires key in s.queue && key !in s.workers
    ensures var s1 := Step(Step(s, Take(key)), ReadPolicy(key, r.get));
      var s' := Step(Step(Step(s1, ListUsers(key, r.list)), Release(key, r.patch)), Finish(key));
      var h := Handled(s.policies, s.labels, s.released, key, r);
      && s'.released == h.released && s'.policies == s.policies && s'.labels == s.labels
      && s'.workers == s.workers && s'.queue == s.queue - {key}
      && s'.delayed == if h.ok then s.delayed else s.delayed + {key}
  {
    var w1 := AfterRead(s.policies, key, r.get);
    var w2 := if w1.Checking? then AfterList(s.labels, key, w1.policy.binding, r.list) else w1;
    assert Step(s, Take(key)) == Busy(s, key, Begun);
    BusySteps(s, key, Begun);
    assert Step(Busy(s, key, Begun), ReadPolicy(key, r.get)) == Busy(s, key, w1);
    BusySteps(s, key, w1);
    assert Step(Busy(s, key, w1), ListUsers(key, r.list)) == Busy(s, key, w2);
    ReleaseAndFinish(s, key, w2, r.patch);
  }

  /** The system while a worker handles the key. */
  function Busy(s: System, key: Name, w: Worker): System {
    s.(queue := s.queue - {key}, workers := s.workers[key := w])
  }

  lemma BusySteps(s: System, key: Name, w: Worker)
    ensures forall v :: SetWorker(Busy(s, key, w), key, v) == Busy(s, key, v)
  {
    forall v
      ensures SetWorker(Busy(s, key, w), key, v) == Busy(s, key, v)
    {
      assert s.workers[key := w][key := v] == s.workers[key := v];
    }
  }

  function AfterRead(policies: map<Name, Policy>, key: Name, get: bool): Worker {
    if !get then Failing
    else if key in policies && policies[key].deleting then Checking(policies[key]) else Elsewhere
  }

  function AfterList(labels: map<Resource, Name>, key: Name, binding: Binding, list: bool): Worker {
    if list || binding == BindOther then Decided(InUse(labels, key, binding)) else Failing
  }

  lemma ReleaseAndFinish(s: System, key: Name, w: Worker, patch: bool)
    requires key !in s.workers && (w.Decided? || w.Elsewhere? || w.Failing?)
    ensures var s' := Step(Step(Busy(s, key, w), Release(key, patch)), Finish(key));
      var release := w == Decided(false) && key in s.policies && s.policies[key].finalizer;
      && s'.released == (if release && patch then s.released + {s.policies[key].uid} else s.released)
      && s'.policies == s.policies && s'.labels == s.labels && s'.workers == s.workers && s'.queue == s.queue - {key}
      && s'.delayed == if w.Failing? || (release && !patch) then s.delayed + {key} else s.delayed
  {
    BusySteps(s, key, w);
    var release := w == Decided(false) && key in s.policies && s.policies[key].finalizer;
    var r := if release && patch then s.(released := s.released + {s.policies[key].uid}) else s;
    var v := if w != Decided(false) then w else if release && !patch then Failing else Elsewhere;
    assert Step(Busy(s, key, w), Release(key, patch)) == Busy(r, key, v);
    FinishBusy(r, key, v);
  }

  lemma FinishBusy(s: System, key: Name, w: Worker)
    requires key !in s.workers && (w == Decided(true) || w.Elsewhere? || w.Failing?)
    ensures Step(Busy(s, key, w), Finish(key))
      == s.(queue := s.queue - {key}, delayed := if w.Failing? then s.delayed + {key} else s.delayed)
  {
    assert s.workers[key := w] - {key} == s.workers;
  }

  class Controller {
    var policies: map<Name, Policy>
    var eips: map<nat, Name>
    var natGws: map<nat, Name>
    var updateQueue: set<Name>
    var released: set<nat>

    /** The cached labels of both kinds together. */
    function Labels(): map<Resource, Name>
      reads this
    {
      (map r | r in (set i | i in eips :: Resource(BindEip, i)) :: eips[r.id])
      + (map r | r in (set i | i in natGws :: Resource(BindNatGw, i)) :: natGws[r.id])
    }

    method EnqueueQoSPolicyRelease(oldLabel: Option<Name>, newLabel: Option<Name>)
      modifies this`updateQueue
      ensures updateQueue == if oldLabel.Some? && oldLabel != newLabel
                             then old(updateQueue) + {oldLabel.value} else old(updateQueue)
    {
      if oldLabel != None && oldLabel != newLabel {
        updateQueue := updateQueue + {oldLabel.value};
      }
    }

    /** The deletion half of handleUpdateQoSPolicy; a policy that is not being deleted is left to its other half. */
    method HandleDeleting(key: Name, r: Replies) returns (ok: bool)
      modifies this`released
      ensures Handling(ok, released) == Handled(policies, Labels(), old(released), key, r)
    {
      ok := true;
      if !r.get {
        return false;
      }
      if key !in policies || !policies[key].deleting {
        return;
      }
      var p := policies[key];
      if p.binding != BindOther && !r.list {
        return false;
      }
      var inUse := UsedBy(key, p.binding);
      if inUse {
        return;
      }
      if !p.finalizer {
        return;
      }
      if !r.patch {
        return false;
      }
      released := released + {p.uid};
    }

    method UsedBy(key: Name, binding: Binding) returns (inUse: bool)
      ensures inUse == InUse(Labels(), key, binding)
    {
      inUse := false;
      if binding == BindEip {
        inUse := exists i :: i in eips && eips[i] == key;
        assert inUse <==> InUse(Labels(), key, BindEip) by {
          if i :| i in eips && eips[i] == key { assert Labels()[Resource(BindEip, i)] == key; }
        }
      }
      if binding == BindNatGw {
        inUse := exists i :: i in natGws && natGws[i] == key;
        assert inUse <==> InUse(Labels(), key, BindNatGw) by {
          if i :| i in natGws && natGws[i] == key { assert Labels()[Resource(BindNatGw, i)] == key; }
        }
      }
    }
  }
}
