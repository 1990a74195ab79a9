/** Compiling cluster and admin network policies of one tier and direction into ACLs.

    Policies are meant to be walked by ascending priority, their rules in order; the switch evaluates ACLs by
    descending ACL priority. Address sets are looked up by name when a packet is matched, and may have changed since
    the ACLs were made. */
module AclCompilation {
  import opened Common

  datatype Family = V4 | V6

  /** A contiguous range of addresses. */
  datatype Net = Net(first: nat, last: nat)

  datatype PortSpec = Number(protocol: string, port: nat) | Range(protocol: string, first: nat, last: nat) | Unsupported

  datatype RuleAction = Accept | Deny | Pass | OtherAction

  datatype AclAction = AllowRelated | Drop | PassOn

  datatype Rule = Rule(action: RuleAction, ports: seq<PortSpec>, hasDomains: bool)

  /** The two policy kinds: they differ in their limits and in the scope of the domain-name test. */
  datatype Kind = Cnp | Anp

  /** One direction of a policy; `subject` is its port group. */
  datatype Policy = Policy(kind: Kind, name: string, priority: int, subject: set<string>, rules: seq<Rule>)

  datatype AddressSet = AddressSet(owner: string, index: nat, family: Family)

  /** The contents of the address sets. */
  type Addresses = AddressSet -> seq<Net>

  datatype Packet = Packet(port: string, family: Family, peer: nat, protocol: string, destination: nat)

  datatype Acl = Acl(addresses: AddressSet, ports: Option<PortSpec>, subject: set<string>, priority: int,
                     action: AclAction)

  datatype Direction = Ingress | Egress

  const AclMax: int := 30000
  const WindowLow: int := 20001

  function MaxRules(kind: Kind): nat { if kind.Cnp? then 25 else 100 }

  function MaxPriority(kind: Kind): nat { if kind.Cnp? then 399 else 99 }

  /** A 32-bit signed product. */
  function Wrap32(x: int): int { (x + 0x8000_0000) % 0x1_0000_0000 - 0x8000_0000 }

  function AclPriority(kind: Kind, priority: int, index: nat): int {
    AclMax - Wrap32(if kind.Cnp? then priority * 25 else priority * 100) - index
  }

  /** What validation lets through; only cluster policies are checked for a negative priority. */
  predicate Accepted(p: Policy) {
    && -0x8000_0000 <= p.priority <= MaxPriority(p.kind) && |p.rules| <= MaxRules(p.kind)
    && (p.kind.Cnp? ==> 0 <= p.priority)
  }

  function ActionOf(a: RuleAction): AclAction {
    match a
    case Accept => AllowRelated
    case Deny => Drop
    case Pass => PassOn
    case OtherAction => Drop
  }

  // ----- emission

  predicate AnyDomains(rules: seq<Rule>) {
    exists i :: 0 <= i < |rules| && rules[i].hasDomains
  }

  /** Whether the i-th rule gets ACLs for a family: its address set has entries, or domain names may fill it later. */
  predicate Emits(dir: Direction, p: Policy, i: nat, f: Family, addresses: Addresses)
    requires i < |p.rules|
  {
    || addresses(AddressSet(p.name, i, f)) != []
    || (dir.Egress? && if p.kind.Cnp? then AnyDomains(p.rules) else p.rules[i].hasDomains)
  }

  /** The port part of the matches of a rule: one without ports, else one per supported port. */
  function PortMatches(ports: seq<PortSpec>): seq<Option<PortSpec>> {
    if ports == [] then [None] else Supported(ports)
  }

  function Supported(ports: seq<PortSpec>): seq<Option<PortSpec>> {
    if ports == [] then []
    else
      var last := ports[|ports| - 1];
      Supported(ports[..|ports| - 1]) + if last.Unsupported? then [] else [Some(last)]
  }

  function NewAcl(p: Policy, i: nat, f: Family, ports: Option<PortSpec>): Acl
    requires i < |p.rules|
  {
    Acl(AddressSet(p.name, i, f), ports, p.subject, AclPriority(p.kind, p.priority, i), ActionOf(p.rules[i].action))
  }

  function AclsWith(p: Policy, i: nat, f: Family, matches: seq<Option<PortSpec>>): seq<Acl>
    requires i < |p.rules|
  {
    if matches == [] then []
    else AclsWith(p, i, f, matches[..|matches| - 1]) + [NewAcl(p, i, f, matches[|matches| - 1])]
  }

  function FamilyAcls(dir: Direction, p: Policy, i: nat, f: Family, addresses: Addresses): seq<Acl>
    requires i < |p.rules|
  {
    if Emits(dir, p, i, f, addresses) then AclsWith(p, i, f, PortMatches(p.rules[i].ports)) else []
  }

  /** The ACLs of each rule and family. */
  function AclsOf(dir: Direction, p: Policy, addresses: Addresses): (nat, Family) -> seq<Acl> {
    (i: nat, f: Family) => if i < |p.rules| then FamilyAcls(dir, p, i, f, addresses) else []
  }

  /** The ACLs of the first n rules, in the order they are added. */
  function Joined(n: nat, acls: (nat, Family) -> seq<Acl>): seq<Acl> {
    if n == 0 then [] else Joined(n - 1, acls) + acls(n - 1, V4) + acls(n - 1, V6)
  }

  function Compiled(dir: Direction, p: Policy, addresses: Addresses): seq<Acl> {
    Joined(|p.rules|, AclsOf(dir, p, addresses))
  }

  method NewMatches(ports: seq<PortSpec>) returns (matches: seq<Option<PortSpec>>)
    ensures matches == PortMatches(ports)
  {
    if |ports| == 0 {
      return [None];
    }
    matches := [];
    for k := 0 to |ports|
      invariant matches == Supported(ports[..k])
    {
      assert ports[..k + 1][..k] == ports[..k];
      if !ports[k].Unsupported? {
        matches := matches + [Some(ports[k])];
      }
    }
    assert ports[..|ports|] == ports;
  }

  method AclsForMatches(p: Policy, i: nat, f: Family, matches: seq<Option<PortSpec>>) returns (acls: seq<Acl>)
    requires i < |p.rules|
    ensures acls == AclsWith(p, i, f, matches)
  {
    acls := [];
    for k := 0 to |matches|
      invariant acls == AclsWith(p, i, f, matches[..k])
    {
      assert matches[..k + 1][..k] == matches[..k];
      acls := acls + [NewAcl(p, i, f, matches[k])];
    }
    assert matches[..|matches|] == matches;
  }

  method RuleAcls(dir: Direction, p: Policy, i: nat, f: Family, addresses: Addresses) returns (acls: seq<Acl>)
    requires i < |p.rules|
    ensures acls == AclsOf(dir, p, addresses)(i, f)
  {
    acls := [];
    if Emits(dir, p, i, f, addresses) {
      var matches := NewMatches(p.rules[i].ports);
      acls := AclsForMatches(p, i, f, matches);
    }
  }

  /** The ACL loop of one direction. */
  method EmitAcls(dir: Direction, p: Policy, addresses: Addresses) returns (acls: seq<Acl>)
    ensures acls == Compiled(dir, p, addresses)
  {
    acls := [];
    for i := 0 to |p.rules|
      invariant acls == Joined(i, AclsOf(dir, p, addresses))
    {
      var v4 := RuleAcls(dir, p, i, V4, addresses);
      var v6 := RuleAcls(dir, p, i, V6, addresses);
      acls := acls + v4 + v6;
    }
  }

  // ----- which ACLs are emitted

  /** One ACL for every rule and family that has addresses or may get them, and every supported port. */
  predicate EmittedBy(dir: Direction, p: Policy, addresses: Addresses, a: Acl) {
    var i := a.addresses.index;
    && i < |p.rules| && Emits(dir, p, i, a.addresses.family, addresses)
    && a == NewAcl(p, i, a.addresses.family, a.ports)
    && (if p.rules[i].ports == [] then a.ports.None?
        else a.ports.Some? && a.ports.value in p.rules[i].ports && !a.ports.value.Unsupported?)
  }

  lemma {:induction false} SupportedMembers(ports: seq<PortSpec>, m: Option<PortSpec>)
    ensures m in Supported(ports) <==> m.Some? && m.value in ports && !m.value.Unsupported?
  {
    if ports != [] {
      var init := ports[..|ports| - 1];
      SupportedMembers(init, m);
      assert m.Some? ==> (m.value in ports <==> m.value in init || m.value == ports[|ports| - 1]);
    }
  }

  lemma {:induction false} AclsWithMembers(p: Policy, i: nat, f: Family, matches: seq<Option<PortSpec>>, a: Acl)
    requires i < |p.rules|
    ensures a in AclsWith(p, i, f, matches) <==> a.ports in matches && a == NewAcl(p, i, f, a.ports)
  {
    if matches != [] {
      var init := matches[..|matches| - 1];
      AclsWithMembers(p, i, f, init, a);
      assert a.ports in matches <==> a.ports in init || a.ports == matches[|matches| - 1];
    }
  }

  lemma FamilyMembers(dir: Direction, p: Policy, addresses: Addresses, i: nat, f: Family, a: Acl)
    requires i < |p.rules|
    ensures a in FamilyAcls(dir, p, i, f, addresses)
      <==> a.addresses.index == i && a.addresses.family == f && EmittedBy(dir, p, addresses, a)
  {
    AclsWithMembers(p, i, f, PortMatches(p.rules[i].ports), a);
    SupportedMembers(p.rules[i].ports, a.ports);
  }

  lemma {:induction false} JoinedMembers(n: nat, acls: (nat, Family) -> seq<Acl>, a: Acl, emitted: bool)
    requires forall i: nat, f: Family | i < n :: a in acls(i, f) <==>
      a.addresses.index == i && a.addresses.family == f && emitted
    ensures a in Joined(n, acls) <==> a.addresses.index < n && emitted
  {
    if n > 0 {
      JoinedMembers(n - 1, acls, a, emitted);
    }
  }

  /** The loop emits an ACL for exactly the rules, families and ports that EmittedBy names. */
  lemma CompiledMembers(dir: Direction, p: Policy, addresses: Addresses, a: Acl)
    ensures a in Compiled(dir, p, addresses) <==> EmittedBy(dir, p, addresses, a)
  {
    var emitted := EmittedBy(dir, p, addresses, a);
    forall i: nat, f: Family | i < |p.rules|
      ensures a in AclsOf(dir, p, addresses)(i, f) <==> a.addresses.index == i && a.addresses.family == f && emitted
    {
      FamilyMembers(dir, p, addresses, i, f, a);
    }
    JoinedMembers(|p.rules|, AclsOf(dir, p, addresses), a, emitted);
  }

  /** The rule has ACLs of a family: its address set has entries, or it is an egress rule that names domains, itself or,
      for a cluster policy, anywhere in the policy; and it has no ports or some that are supported. */
  predicate HasAcls(dir: Direction, p: Policy, i: nat, f: Family, addresses: Addresses) {
    && i < |p.rules|
    && (|| |addresses(AddressSet(p.name, i, f))| > 0
        || (dir == Egress && p.kind == Anp && p.rules[i].hasDomains)
        || (dir == Egress && p.kind == Cnp && exists j :: 0 <= j < |p.rules| && p.rules[j].hasDomains))
    && (p.rules[i].ports == [] || exists s :: s in p.rules[i].ports && s != Unsupported)
  }

  /** The loop emits an ACL for a rule and a family exactly if HasAcls says so. */
  lemma EmittedExactly(dir: Direction, p: Policy, addresses: Addresses, i: nat, f: Family)
    ensures HasAcls(dir, p, i, f, addresses)
      <==> exists a :: a in Compiled(dir, p, addresses) && a.addresses == AddressSet(p.name, i, f)
  {
    forall a
      ensures a in Compiled(dir, p, addresses) <==> EmittedBy(dir, p, addresses, a)
    {
      CompiledMembers(dir, p, addresses, a);
    }
    if HasAcls(dir, p, i, f, addresses) {
      var ports := None;
      if p.rules[i].ports != [] {
        var s :| s in p.rules[i].ports && s != Unsupported;
        ports := Some(s);
      }
      assert EmittedBy(dir, p, addresses, NewAcl(p, i, f, ports));
    }
  }

  // ----- the priority encoding

  predicate Before(p: int, i: int, q: int, j: int) {
    p < q || (p == q && i < j)
  }

  /** The place of a rule in the encoding of its kind: 100 places per admin policy, 25 per cluster policy. */
  function Cost(kind: Kind, priority: int, index: nat): int {
    (if kind.Cnp? then priority * 25 else priority * 100) + index
  }

  lemma NoOverflow(kind: Kind, p: int, i: nat)
    requires 0 <= p <= MaxPriority(kind)
    ensures AclPriority(kind, p, i) == AclMax - Cost(kind, p, i)
  {
  }

  /** Without overflow the encoding is strictly decreasing in (priority, index), and so injective. */
  lemma PriorityReversesOrder(kind: Kind, p: int, i: nat, q: int, j: nat)
    requires 0 <= p <= MaxPriority(kind) && 0 <= q <= MaxPriority(kind) && i < MaxRules(kind) && j < MaxRules(kind)
    ensures AclPriority(kind, p, i) > AclPriority(kind, q, j) <==> Before(p, i, q, j)
    ensures AclPriority(kind, p, i) == AclPriority(kind, q, j) <==> p == q && i == j
  {
    NoOverflow(kind, p, i);
    NoOverflow(kind, q, j);
  }

  predicate InWindow(kind: Kind, p: int, i: nat) {
    WindowLow <= AclPriority(kind, p, i) <= AclMax
  }

  /** Accepted priorities that are not negative land in the window 20001..30000, so those of all cluster policies do. A
      negative one, which only the validation of admin policies lets through, lands above the window; far enough below
      zero, where the 32-bit product wraps around, it can land inside again. */
  lemma WindowOfAccepted(p: Policy, i: nat)
    requires Accepted(p) && i < |p.rules|
    ensures 0 <= p.priority ==> InWindow(p.kind, p.priority, i)
    ensures p.kind.Cnp? ==> 0 <= p.priority
    ensures -21474836 <= p.priority < 0 ==> AclMax < AclPriority(p.kind, p.priority, i)
    ensures InWindow(Anp, -42949672, 0)
  {
  }

  /** The window is used up: its ends and every value between are the encoding of an accepted rule. */
  lemma WindowIsFilled(kind: Kind, value: int) returns (p: int, i: nat)
    requires WindowLow <= value <= AclMax
    ensures 0 <= p <= MaxPriority(kind) && i < MaxRules(kind) && AclPriority(kind, p, i) == value
  {
    p, i := (AclMax - value) / MaxRules(kind), (AclMax - value) % MaxRules(kind);
  }

  // ----- the policies of a tier

  /** The policies of a tier in walking order. Admin policies and cluster policies of the admin tier share one map of
      priorities, so that no two of them have the same one; priorities are not negative by their schema. */
  predicate Tier(policies: seq<Policy>) {
    && (forall n :: 0 <= n < |policies| ==> Accepted(policies[n]) && 0 <= policies[n].priority)
    && (forall m, n :: 0 <= m < n < |policies| ==> policies[m].priority < policies[n].priority)
  }

  predicate DistinctNames(policies: seq<Policy>) {
    forall m, n :: 0 <= m < n < |policies| ==> policies[m].name != policies[n].name
  }

  predicate OneKind(policies: seq<Policy>) {
    forall m, n :: 0 <= m < n < |policies| ==> policies[m].kind == policies[n].kind
  }

  /** The ACLs of a tier and direction, made when the address sets were `at`. */
  ghost predicate TierAcls(dir: Direction, policies: seq<Policy>, at: Addresses, acls: set<Acl>) {
    forall a :: a in acls <==> exists n :: 0 <= n < |policies| && a in Compiled(dir, policies[n], at)
  }
}
