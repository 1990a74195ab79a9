/** Two-cycle mark-and-sweep of logical switch ports: a port no owner keeps is remembered by one completed cycle and
    deleted by a later one, unless the cycle fails. */
module PortGc {

  /** What a cycle reads. `ovn` and `hasAddress` are the tests on one annotation of a pod. */
  datatype Attachment = Attachment(hasAddress: bool, ovn: bool, port: string)

  datatype Pod = Pod(hostNetwork: bool, statefulSet: bool, collectable: bool, alive: bool, attachments: seq<Attachment>)

  datatype Node = Node(name: string, port: string, hasAddress: bool, hasEip: bool)

  datatype Vip = Vip(typed: bool, subnetNamed: bool, subnetFound: bool, port: string)

  /** What becomes of a port if the cycle tries to delete it. */
  datatype Answer =
    | DeleteFails       // the port stays and the cycle aborts
    | CleanupFails      // the port goes, then the cycle aborts
    | Deleted           // the port goes

  datatype Port = Port(name: string, answer: Answer)

  /** One call; `listed` is false when a list call fails before any port is looked at. */
  datatype Cycle = Cycle(pods: seq<Pod>, nodes: seq<Node>, vmPorts: set<string>, vips: seq<Vip>, ports: seq<Port>,
                         listed: bool)

  datatype Event = Collect(cycle: Cycle) | Restart

  // ----- who keeps a port

  predicate PodCounts(p: Pod) {
    !p.hostNetwork && if p.statefulSet then !p.collectable else p.alive
  }

  function PodPorts(pods: seq<Pod>): set<string> {
    set p, a | p in pods && PodCounts(p) && a in p.attachments && a.hasAddress && a.ovn :: a.port
  }

  function NodePorts(nodes: seq<Node>): set<string> {
    (set n | n in nodes && n.hasAddress :: n.port) + (set n | n in nodes && n.hasEip :: n.name)
  }

  function VipPorts(vips: seq<Vip>): set<string> {
    set v | v in vips && v.typed && v.subnetNamed && v.subnetFound :: v.port
  }

  /** The port has an owner: a live pod, a node, a virtual machine or a virtual IP. */
  predicate Owned(c: Cycle, port: string) {
    port in PodPorts(c.pods) || port in NodePorts(c.nodes) || port in c.vmPorts || port in VipPorts(c.vips)
  }

  // ----- one cycle

  datatype Outcome = Outcome(marked: set<string>, deleted: set<string>, completed: bool)

  /** The loop over the ports from index i on. */
  function Sweep(c: Cycle, last: set<string>, i: nat, marked: set<string>, deleted: set<string>): Outcome
    requires i <= |c.ports|
    decreases |c.ports| - i
  {
    if i == |c.ports| then Outcome(marked, deleted, true)
    else
      var p := c.ports[i];
      if Owned(c, p.name) then Sweep(c, last, i + 1, marked, deleted)
      else if p.name !in last then Sweep(c, last, i + 1, marked + {p.name}, deleted)
      else match p.answer
        case DeleteFails => Outcome(marked, deleted, false)
        case CleanupFails => Outcome(marked, deleted + {p.name}, false)
        case Deleted => Sweep(c, last, i + 1, marked, deleted + {p.name})
  }

  function Collected(c: Cycle, last: set<string>): Outcome {
    if !c.listed then Outcome({}, {}, false) else Sweep(c, last, 0, {}, {})
  }

  /** The remembered ports after a run. */
  function Remembered(events: seq<Event>): set<string> {
    if events == [] then {}
    else
      var before := Remembered(events[..|events| - 1]);
      match events[|events| - 1]
      case Restart => {}
      case Collect(c) =>
        var o := Collected(c, before);
        if o.completed then o.marked else before
  }

  function OutcomeAt(events: seq<Event>, n: nat): Outcome
    requires n < |events|
  {
    match events[n]
    case Restart => Outcome({}, {}, false)
    case Collect(c) => Collected(c, Remembered(events[..n]))
  }

  class Controller {
    var lastNoPodLSP: set<string>
    var ports: set<string>

    constructor ()
      ensures lastNoPodLSP == {} && ports == {}
    {
      lastNoPodLSP, ports := {}, {};
    }

    method KeptByPods(pods: seq<Pod>) returns (kept: set<string>)
      ensures kept == PodPorts(pods)
    {
      kept := {};
      for i := 0 to |pods|
        invariant kept == PodPorts(pods[..i])
      {
        var pod := pods[i];
        PodPortsJoin(pods[..i], pod);
        assert pods[..i + 1] == pods[..i] + [pod];
        if pod.hostNetwork {
          continue;
        }
        if pod.statefulSet {
          if pod.collectable {
            continue;
          }
        } else if !pod.alive {
          continue;
        }
        kept := kept + set a | a in pod.attachments && a.hasAddress && a.ovn :: a.port;
      }
      assert pods[..|pods|] == pods;
    }

    method KeptByNodes(nodes: seq<Node>) returns (kept: set<string>)
      ensures kept == NodePorts(nodes)
    {
      kept := {};
      for i := 0 to |nodes|
        invariant kept == NodePorts(nodes[..i])
      {
        assert nodes[..i + 1] == nodes[..i] + [nodes[i]];
        NodePortsJoin(nodes[..i], nodes[i]);
        if nodes[i].hasAddress {
          kept := kept + {nodes[i].port};
        }
        if nodes[i].hasEip {
          kept := kept + {nodes[i].name};
        }
      }
      assert nodes[..|nodes|] == nodes;
    }

    method KeptByVips(vips: seq<Vip>) returns (kept: set<string>)
      ensures kept == VipPorts(vips)
    {
      kept := {};
      for i := 0 to |vips|
        invariant kept == VipPorts(vips[..i])
      {
        assert vips[..i + 1] == vips[..i] + [vips[i]];
        VipPortsJoin(vips[..i], vips[i]);
        if vips[i].typed {
          if !vips[i].subnetNamed || !vips[i].subnetFound {
            continue;
          }
          kept := kept + {vips[i].port};
        }
      }
      assert vips[..|vips|] == vips;
    }

    method MarkAndCleanLSP(c: Cycle) returns (ok: bool)
      modifies this
      ensures var o := Collected(c, old(lastNoPodLSP));
        && ok == o.completed && ports == old(ports) - o.deleted
        && lastNoPodLSP == if o.completed then o.marked else old(lastNoPodLSP)
    {
      if !c.listed {
        return false;
      }
      var pods := KeptByPods(c.pods);
      var nodes := KeptByNodes(c.nodes);
      var ipMap := pods + nodes + c.vmPorts;
      var vipsMap := KeptByVips(c.vips);
      var noPodLSP: set<string> := {};
      ghost var deleted: set<string> := {};
      for i := 0 to |c.ports|
        invariant lastNoPodLSP == old(lastNoPodLSP) && ports == old(ports) - deleted
        invariant Collected(c, old(lastNoPodLSP)) == Sweep(c, old(lastNoPodLSP), i, noPodLSP, deleted)
      {
        var lsp := c.ports[i];
        if lsp.name in ipMap {
          continue;
        }
        if lsp.name in vipsMap {
          continue;
        }
        if lsp.name !in lastNoPodLSP {
          noPodLSP := noPodLSP + {lsp.name};
          continue;
        }
        if lsp.answer == DeleteFails {
          return false;
        }
        ports := ports - {lsp.name};
        if lsp.answer == CleanupFails {
          return false;
        }
        deleted := deleted + {lsp.name};
      }
      lastNoPodLSP := noPodLSP;
      return true;
    }
  }

  lemma PodPortsJoin(pods: seq<Pod>, p: Pod)
    ensures PodPorts(pods + [p]) == PodPorts(pods)
      + if PodCounts(p) then (set a | a in p.attachments && a.hasAddress && a.ovn :: a.port) else {}
  {
  }

  lemma NodePortsJoin(nodes: seq<Node>, n: Node)
    ensures NodePorts(nodes + [n])
      == NodePorts(nodes) + (if n.hasAddress then {n.port} else {}) + (if n.hasEip then {n.name} else {})
  {
  }

  lemma VipPortsJoin(vips: seq<Vip>, v: Vip)
    ensures VipPorts(vips + [v]) == VipPorts(vips) + if v.typed && v.subnetNamed && v.subnetFound then {v.port} else {}
  {
  }

  /** Who owns a port, in terms of what the cycle reads: a pod off the host network that is a StatefulSet pod not to be
      collected or any other pod that is alive, through an attachment with an address and of OVN; a node, through its
      address or by an EIP of its name; a virtual machine; or a virtual IP with a type and a subnet that is found. */
  lemma OwnedExactly(c: Cycle, port: string)
    ensures Owned(c, port) <==>
      || (exists p, a :: p in c.pods && a in p.attachments && a.hasAddress && a.ovn && a.port == port && !p.hostNetwork
                         && ((p.statefulSet && !p.collectable) || (!p.statefulSet && p.alive)))
      || (exists n :: n in c.nodes && ((n.hasAddress && n.port == port) || (n.hasEip && n.name == port)))
      || port in c.vmPorts
      || (exists v :: v in c.vips && v.typed && v.subnetNamed && v.subnetFound && v.port == port)
  {
  }

  // ----- what a cycle marks and deletes

  /** The cycle was shown the port, and nothing keeps it. */
  predicate SeenUnowned(c: Cycle, port: string) {
    (exists i :: 0 <= i < |c.ports| && c.ports[i].name == port) && !Owned(c, port)
  }

  /** The loop from i on adds to the marks the unowned ports not remembered, and deletes only remembered ones; if it
      gets to the end it has dealt with all of them. */
  lemma {:induction false} SweepExact(c: Cycle, last: set<string>, i: nat, marked: set<string>, deleted: set<string>,
                                      port: string)
    requires i <= |c.ports|
    ensures var o := Sweep(c, last, i, marked, deleted);
      var seen := (exists k :: i <= k < |c.ports| && c.ports[k].name == port) && !Owned(c, port);
      && (port in o.deleted ==> port in deleted || (seen && port in last))
      && (o.completed ==> (port in o.deleted <==> port in deleted || (seen && port in last)))
      && (o.completed ==> (port in o.marked <==> port in marked || (seen && port !in last)))
    decreases |c.ports| - i
  {
    if i < |c.ports| {
      var p := c.ports[i];
      if Owned(c, p.name) {
        SweepExact(c, last, i + 1, marked, deleted, port);
      } else if p.name !in last {
        SweepExact(c, last, i + 1, marked + {p.name}, deleted, port);
      } else if p.answer.Deleted? {
        SweepExact(c, last, i + 1, marked, deleted + {p.name}, port);
      }
    }
  }

  lemma CycleExact(c: Cycle, last: set<string>, port: string)
    ensures var o := Collected(c, last);
      && (port in o.deleted ==> SeenUnowned(c, port) && port in last)
      && (o.completed ==> (port in o.deleted <==> SeenUnowned(c, port) && port in last))
      && (o.completed ==> (port in o.marked <==> SeenUnowned(c, port) && port !in last))
  {
    if c.listed {
      SweepExact(c, last, 0, {}, {}, port);
    }
  }

  /** The port has no owner and was remembered, so that the cycle tries to delete it. */
  predicate Due(c: Cycle, last: set<string>, i: nat) {
    i < |c.ports| && !Owned(c, c.ports[i].name) && c.ports[i].name in last
  }

  lemma {:induction false} SweepByAnswers(c: Cycle, last: set<string>, i: nat, marked: set<string>,
                                          deleted: set<string>,
                                          port: string)
    requires i <= |c.ports|
    ensures var o := Sweep(c, last, i, marked, deleted);
      && (o.completed <==> forall k: nat :: i <= k && Due(c, last, k) ==> c.ports[k].answer.Deleted?)
      && (port in o.deleted <==>
            || port in deleted
            || exists k: nat :: i <= k && Due(c, last, k) && c.ports[k].name == port && !c.ports[k].answer.DeleteFails?
                 && forall j: nat :: i <= j < k && Due(c, last, j) ==> c.ports[j].answer.Deleted?)
    decreases |c.ports| - i
  {
    if i < |c.ports| {
      var p := c.ports[i];
      if !Due(c, last, i) {
        SweepByAnswers(c, last, i + 1, if Owned(c, p.name) then marked else marked + {p.name}, deleted, port);
      } else if p.answer.Deleted? {
        SweepByAnswers(c, last, i + 1, marked, deleted + {p.name}, port);
      }
    }
  }

  /** A cycle completes exactly if it could list and every deletion it tries goes through with its cleanup. It deletes
      exactly the ports it tries up to the first one that does not; that one too if only the cleanup failed. */
  lemma CycleByAnswers(c: Cycle, last: set<string>, port: string)
    ensures var o := Collected(c, last);
      && (o.completed <==> c.listed && forall k: nat :: Due(c, last, k) ==> c.ports[k].answer.Deleted?)
      && (port in o.deleted <==>
            && c.listed
            && exists k: nat :: Due(c, last, k) && c.ports[k].name == port && !c.ports[k].answer.DeleteFails?
                 && forall j: nat :: j < k && Due(c, last, j) ==> c.ports[j].answer.Deleted?)
  {
    if c.listed {
      SweepByAnswers(c, last, 0, {}, {}, port);
    }
  }

  // ----- runs

  predicate CompletedAt(events: seq<Event>, n: nat)
    requires n < |events|
  {
    OutcomeAt(events, n).completed
  }

  predicate UnownedAt(events: seq<Event>, n: nat, port: string)
    requires n < |events|
  {
    events[n].Collect? && SeenUnowned(events[n].cycle, port)
  }

  predicate DeletedAt(events: seq<Event>, n: nat, port: string)
    requires n < |events|
  {
    port in OutcomeAt(events, n).deleted
  }

  /** Cycle m is the last completed one before n, with no restart since. */
  predicate LastCompleted(events: seq<Event>, m: nat, n: nat)
    requires m < n <= |events|
  {
    CompletedAt(events, m) && forall k :: m < k < n ==> !events[k].Restart? && !CompletedAt(events, k)
  }

  lemma {:induction false} RememberedSince(events: seq<Event>, m: nat, n: nat)
    requires m < n <= |events| && LastCompleted(events, m, n)
    ensures Remembered(events[..n]) == OutcomeAt(events, m).marked
  {
    assert events[..n][..n - 1] == events[..n - 1];
    if n > m + 1 {
      RememberedSince(events, m, n - 1);
      assert !CompletedAt(events, n - 1) && !events[n - 1].Restart?;
    }
  }

  lemma {:induction false} RememberedHasOrigin(events: seq<Event>, n: nat, port: string) returns (m: nat)
    requires n <= |events| && port in Remembered(events[..n])
    ensures m < n && LastCompleted(events, m, n)
  {
    assert events[..n][..n - 1] == events[..n - 1];
    if CompletedAt(events, n - 1) {
      m := n - 1;
    } else {
      m := RememberedHasOrigin(events, n - 1, port);
    }
  }

  /** A port is deleted only if it is unowned now and the last completed cycle, with no restart since, also saw that
      name unowned and did not delete it; aborted cycles in between change nothing. */
  lemma DeletedWasUnownedTwice(events: seq<Event>, n: nat, port: string) returns (m: nat)
    requires n < |events| && DeletedAt(events, n, port)
    ensures UnownedAt(events, n, port)
    ensures m < n && LastCompleted(events, m, n) && UnownedAt(events, m, port) && !DeletedAt(events, m, port)
  {
    CycleExact(events[n].cycle, Remembered(events[..n]), port);
    m := RememberedHasOrigin(events, n, port);
    RememberedSince(events, m, n);
    CycleExact(events[m].cycle, Remembered(events[..m]), port);
  }

  /** A port that every completed cycle finds owned is never deleted, not even by a cycle that aborts. */
  lemma OwnedIsNeverDeleted(events: seq<Event>, port: string)
    requires forall n :: 0 <= n < |events| && CompletedAt(events, n) ==> !UnownedAt(events, n, port)
    ensures forall n :: 0 <= n < |events| ==> !DeletedAt(events, n, port)
  {
    forall n | 0 <= n < |events|
      ensures !DeletedAt(events, n, port)
    {
      if DeletedAt(events, n, port) {
        var m := DeletedWasUnownedTwice(events, n, port);
        assert false;
      }
    }
  }

  /** A port that two consecutive completed cycles find unowned is deleted by exactly one of them. */
  lemma UnownedTwiceIsDeleted(events: seq<Event>, m: nat, n: nat, port: string)
    requires m < n < |events| && LastCompleted(events, m, n) && CompletedAt(events, n)
    requires UnownedAt(events, m, port) && UnownedAt(events, n, port)
    ensures DeletedAt(events, m, port) <==> !DeletedAt(events, n, port)
  {
    CycleExact(events[m].cycle, Remembered(events[..m]), port);
    CycleExact(events[n].cycle, Remembered(events[..n]), port);
    RememberedSince(events, m, n);
  }

  /** No cycle, completed or aborted, deletes the port of a pod it is shown off the host network that is a StatefulSet
      pod not to be collected, or any other pod that is alive. */
  lemma PodPortIsNotDeleted(events: seq<Event>, n: nat, p: Pod, a: Attachment)
    requires n < |events| && events[n].Collect? && p in events[n].cycle.pods && !p.hostNetwork
    requires (p.statefulSet && !p.collectable) || (!p.statefulSet && p.alive)
    requires a in p.attachments && a.hasAddress && a.ovn
    ensures !DeletedAt(events, n, a.port)
  {
    OwnedExactly(events[n].cycle, a.port);
    CycleExact(events[n].cycle, Remembered(events[..n]), a.port);
  }
}
