/** What compiled ACLs mean: highest-priority-first evaluation against walking the policies of the tier. */
module AclMeaning {
  import opened Common
  import opened AclCompilation

  // ----- the meaning of a rule, and of an ACL

  /** What becomes of a packet: let through, dropped, or left to the next tier. */
  datatype Verdict = Allowed | Denied | Passed

  function RuleVerdict(a: RuleAction): Verdict {
    if a == Accept then Allowed else if a == Pass then Passed else Denied
  }

  function AclVerdict(a: AclAction): Verdict {
    match a
    case AllowRelated => Allowed
    case Drop => Denied
    case PassOn => Passed
  }

  predicate Contains(nets: seq<Net>, a: nat) {
    exists k :: 0 <= k < |nets| && nets[k].first <= a <= nets[k].last
  }

  predicate PortHits(s: PortSpec, k: Packet) {
    match s
    case Number(protocol, port) => k.protocol == protocol && k.destination == port
    case Range(protocol, first, last) => k.protocol == protocol && first <= k.destination <= last
    case Unsupported => false
  }

  /** A list of ports hits a packet: an empty list any, else one of its ports does. */
  predicate PortsHit(ports: seq<PortSpec>, k: Packet) {
    ports == [] || exists s :: s in ports && PortHits(s, k)
  }

  /** The packet is one the i-th rule of p is about. */
  predicate RuleHits(p: Policy, i: nat, addresses: Addresses, k: Packet)
    requires i < |p.rules|
  {
    && k.port in p.subject && Contains(addresses(AddressSet(p.name, i, k.family)), k.peer)
    && PortsHit(p.rules[i].ports, k)
  }

  predicate AclMatches(a: Acl, addresses: Addresses, k: Packet) {
    && k.port in a.subject && a.addresses.family == k.family && Contains(addresses(a.addresses), k.peer)
    && (a.ports.Some? ==> PortHits(a.ports.value, k))
  }

  /** A rule that decides a packet, and how. */
  datatype Hit = Hit(owner: string, index: nat, verdict: Verdict)

  function RuleHit(p: Policy, i: nat): Hit
    requires i < |p.rules|
  {
    Hit(p.name, i, RuleVerdict(p.rules[i].action))
  }

  function HitOf(a: Acl): Hit {
    Hit(a.addresses.owner, a.addresses.index, AclVerdict(a.action))
  }

  // ----- walking the policies

  /** Which rules are taken into account, for a family. */
  type Live = (Policy, nat, Family) -> bool

  function WalkRules(p: Policy, i: nat, live: Live, addresses: Addresses, k: Packet): Option<Hit>
    requires i <= |p.rules|
    decreases |p.rules| - i
  {
    if i == |p.rules| then None
    else if live(p, i, k.family) && RuleHits(p, i, addresses, k) then Some(RuleHit(p, i))
    else WalkRules(p, i + 1, live, addresses, k)
  }

  /** Policies one after the other, the rules of each in order: the first live rule that hits decides. */
  function Walk(policies: seq<Policy>, live: Live, addresses: Addresses, k: Packet): Option<Hit> {
    if policies == [] then None
    else
      var h := WalkRules(policies[0], 0, live, addresses, k);
      if h.Some? then h else Walk(policies[1..], live, addresses, k)
  }

  const AllRules: Live := (p: Policy, i: nat, f: Family) => true

  function EmittedRules(dir: Direction, at: Addresses): Live {
    (p: Policy, i: nat, f: Family) => i < |p.rules| && Emits(dir, p, i, f, at)
  }

  /** The i-th rule of the n-th policy is live and hits. */
  predicate LiveHit(policies: seq<Policy>, live: Live, addresses: Addresses, k: Packet, n: nat, i: nat) {
    && n < |policies| && i < |policies[n].rules|
    && live(policies[n], i, k.family) && RuleHits(policies[n], i, addresses, k)
  }

  /** It is the first such rule of the walk. */
  ghost predicate First(policies: seq<Policy>, live: Live, addresses: Addresses, k: Packet, n: nat, i: nat) {
    && LiveHit(policies, live, addresses, k, n, i)
    && forall m: nat, j: nat :: LiveHit(policies, live, addresses, k, m, j) ==> n < m || (n == m && i <= j)
  }

  lemma {:induction false} RulesWalked(p: Policy, i: nat, live: Live, addresses: Addresses, k: Packet)
    requires i <= |p.rules|
    ensures var h := WalkRules(p, i, live, addresses, k);
      && (h.Some? ==>
        && i <= h.value.index < |p.rules| && h.value == RuleHit(p, h.value.index)
        && live(p, h.value.index, k.family) && RuleHits(p, h.value.index, addresses, k))
      && forall j :: i <= j < (if h.Some? then h.value.index else |p.rules|) ==>
           !(live(p, j, k.family) && RuleHits(p, j, addresses, k))
    decreases |p.rules| - i
  {
    if i < |p.rules| {
      RulesWalked(p, i + 1, live, addresses, k);
    }
  }

  /** The walk finds a live hit exactly when there is one, and it is the first. */
  lemma {:induction false} WalkFindsFirst(policies: seq<Policy>, live: Live, addresses: Addresses, k: Packet)
    returns (n: nat)
    ensures var h := Walk(policies, live, addresses, k);
      && (h.None? ==> forall m: nat, j: nat :: !LiveHit(policies, live, addresses, k, m, j))
      && (h.Some? ==>
        && First(policies, live, addresses, k, n, h.value.index) && h.value == RuleHit(policies[n], h.value.index))
  {
    n := 0;
    if policies != [] {
      RulesWalked(policies[0], 0, live, addresses, k);
      if WalkRules(policies[0], 0, live, addresses, k).None? {
        var n' := WalkFindsFirst(policies[1..], live, addresses, k);
        n := n' + 1;
        forall m: nat, j: nat | LiveHit(policies, live, addresses, k, m, j)
          ensures m > 0 && LiveHit(policies[1..], live, addresses, k, m - 1, j)
        {
        }
      }
    }
  }

  lemma FirstIsUnique(policies: seq<Policy>, live: Live, addresses: Addresses, k: Packet, n: nat, i: nat)
    requires First(policies, live, addresses, k, n, i)
    ensures Walk(policies, live, addresses, k) == Some(RuleHit(policies[n], i))
  {
    var m := WalkFindsFirst(policies, live, addresses, k);
    assert LiveHit(policies, live, addresses, k, n, i);
  }

  // ----- evaluating the ACLs

  /** ACL a may decide the packet: it matches, and no matching ACL has a higher priority. */
  ghost predicate Wins(acls: set<Acl>, addresses: Addresses, k: Packet, a: Acl) {
    && a in acls && AclMatches(a, addresses, k)
    && forall b :: b in acls && AclMatches(b, addresses, k) ==> b.priority <= a.priority
  }

  /** The ACLs may decide the packet as h does: no ACL matches, or one that wins stands for h. */
  ghost predicate Decides(acls: set<Acl>, addresses: Addresses, k: Packet, h: Option<Hit>) {
    if h.None? then forall a :: a in acls ==> !AclMatches(a, addresses, k)
    else exists a :: Wins(acls, addresses, k, a) && HitOf(a) == h.value
  }

  lemma {:induction false} MaxExists(s: set<int>) returns (x: int)
    requires s != {}
    ensures x in s && forall y :: y in s ==> y <= x
  {
    assert (forall z :: z !in s) ==> s == {};
    var z :| z in s;
    x := z;
    if s != {z} {
      var y := MaxExists(s - {z});
      x := if z < y then y else z;
      assert forall v :: v in s ==> v == z || v in s - {z};
    }
  }

  /** The ACLs decide every packet in some way. */
  lemma SomethingDecides(acls: set<Acl>, addresses: Addresses, k: Packet) returns (h: Option<Hit>)
    ensures Decides(acls, addresses, k, h)
  {
    var matching := set a | a in acls && AclMatches(a, addresses, k);
    if matching == {} {
      h := None;
      forall a | a in acls ensures !AclMatches(a, addresses, k) { assert a !in matching; }
    } else {
      var a0 :| a0 in matching;
      var priorities := set a | a in matching :: a.priority;
      assert a0.priority in priorities;
      var x := MaxExists(priorities);
      var a :| a in matching && a.priority == x;
      assert forall b :: b in matching ==> b.priority in priorities;
      assert Wins(acls, addresses, k, a);
      h := Some(HitOf(a));
    }
  }

  // ----- ACLs and rules

  /** A matching emitted ACL stands for an emitted rule that hits. */
  lemma MatchingAclHits(dir: Direction, p: Policy, at: Addresses, now: Addresses, k: Packet, a: Acl)
    requires EmittedBy(dir, p, at, a) && AclMatches(a, now, k)
    ensures Emits(dir, p, a.addresses.index, k.family, at) && RuleHits(p, a.addresses.index, now, k)
  {
  }

  /** An emitted rule that hits has a matching ACL. */
  lemma HitHasAcl(dir: Direction, p: Policy, at: Addresses, now: Addresses, k: Packet, i: nat) returns (a: Acl)
    requires i < |p.rules| && Emits(dir, p, i, k.family, at) && RuleHits(p, i, now, k)
    ensures EmittedBy(dir, p, at, a) && AclMatches(a, now, k) && a.addresses.index == i
  {
    var ports := None;
    if p.rules[i].ports != [] {
      var s :| s in p.rules[i].ports && PortHits(s, k);
      ports := Some(s);
    }
    a := NewAcl(p, i, k.family, ports);
  }

  function Rank(policies: seq<Policy>, n: nat, i: nat): int
    requires n < |policies|
  {
    AclPriority(policies[n].kind, policies[n].priority, i)
  }

  /** The rule that a matching ACL stands for. */
  lemma MatchingAclHasRule(dir: Direction, policies: seq<Policy>, at: Addresses, now: Addresses, acls: set<Acl>,
                           k: Packet, a: Acl) returns (m: nat)
    requires TierAcls(dir, policies, at, acls) && a in acls && AclMatches(a, now, k)
    ensures LiveHit(policies, EmittedRules(dir, at), now, k, m, a.addresses.index)
    ensures a.priority == Rank(policies, m, a.addresses.index) && HitOf(a) == RuleHit(policies[m], a.addresses.index)
  {
    m :| 0 <= m < |policies| && a in Compiled(dir, policies[m], at);
    CompiledMembers(dir, policies[m], at, a);
    MatchingAclHits(dir, policies[m], at, now, k, a);
  }

  /** A matching ACL of an emitted rule that hits. */
  lemma RuleHasMatchingAcl(dir: Direction, policies: seq<Policy>, at: Addresses, now: Addresses, acls: set<Acl>,
                           k: Packet, n: nat, i: nat) returns (a: Acl)
    requires TierAcls(dir, policies, at, acls) && LiveHit(policies, EmittedRules(dir, at), now, k, n, i)
    ensures a in acls && AclMatches(a, now, k) && a.priority == Rank(policies, n, i)
    ensures HitOf(a) == RuleHit(policies[n], i)
  {
    a := HitHasAcl(dir, policies[n], at, now, k, i);
    CompiledMembers(dir, policies[n], at, a);
  }

  /** No live rule that hits has a higher ACL priority. */
  ghost predicate Top(policies: seq<Policy>, live: Live, addresses: Addresses, k: Packet, n: nat, i: nat) {
    && LiveHit(policies, live, addresses, k, n, i)
    && forall m: nat, j: nat ::
         LiveHit(policies, live, addresses, k, m, j) ==> Rank(policies, m, j) <= Rank(policies, n, i)
  }

  ghost predicate TopHit(policies: seq<Policy>, live: Live, addresses: Addresses, k: Packet, h: Hit) {
    exists n: nat, i: nat :: Top(policies, live, addresses, k, n, i) && h == RuleHit(policies[n], i)
  }

  lemma WinnerIsTop(dir: Direction, policies: seq<Policy>, at: Addresses, now: Addresses, acls: set<Acl>, k: Packet,
                    a: Acl)
    requires TierAcls(dir, policies, at, acls) && Wins(acls, now, k, a)
    ensures TopHit(policies, EmittedRules(dir, at), now, k, HitOf(a))
  {
    var m := MatchingAclHasRule(dir, policies, at, now, acls, k, a);
    forall n: nat, i: nat | LiveHit(policies, EmittedRules(dir, at), now, k, n, i)
      ensures Rank(policies, n, i) <= a.priority
    {
      var b := RuleHasMatchingAcl(dir, policies, at, now, acls, k, n, i);
    }
    assert Top(policies, EmittedRules(dir, at), now, k, m, a.addresses.index);
  }

  lemma TopIsWinner(dir: Direction, policies: seq<Policy>, at: Addresses, now: Addresses, acls: set<Acl>, k: Packet,
                    n: nat, i: nat)
    requires TierAcls(dir, policies, at, acls) && Top(policies, EmittedRules(dir, at), now, k, n, i)
    ensures Decides(acls, now, k, Some(RuleHit(policies[n], i)))
  {
    var b := RuleHasMatchingAcl(dir, policies, at, now, acls, k, n, i);
    forall a | a in acls && AclMatches(a, now, k)
      ensures a.priority <= b.priority
    {
      var m := MatchingAclHasRule(dir, policies, at, now, acls, k, a);
    }
    assert Wins(acls, now, k, b);
  }

  /** ACLs made for the address sets `at` decide each packet, with the address sets as they are now, as the emitted
      rules of the highest ACL priority do, for policies of both kinds together. */
  lemma AclsDecideByRank(dir: Direction, policies: seq<Policy>, at: Addresses, now: Addresses, acls: set<Acl>,
                         k: Packet, h: Option<Hit>)
    requires TierAcls(dir, policies, at, acls)
    ensures Decides(acls, now, k, h) <==>
      if h.None? then forall n: nat, i: nat :: !LiveHit(policies, EmittedRules(dir, at), now, k, n, i)
      else TopHit(policies, EmittedRules(dir, at), now, k, h.value)
  {
    var live := EmittedRules(dir, at);
    if h.Some? {
      if Decides(acls, now, k, h) {
        var a :| Wins(acls, now, k, a) && HitOf(a) == h.value;
        WinnerIsTop(dir, policies, at, now, acls, k, a);
      }
      if TopHit(policies, live, now, k, h.value) {
        var n: nat, i: nat :| Top(policies, live, now, k, n, i) && h.value == RuleHit(policies[n], i);
        TopIsWinner(dir, policies, at, now, acls, k, n, i);
      }
    } else {
      forall a | a in acls && AclMatches(a, now, k)
        ensures exists n: nat, i: nat :: LiveHit(policies, live, now, k, n, i)
      {
        var m := MatchingAclHasRule(dir, policies, at, now, acls, k, a);
      }
      forall n: nat, i: nat | LiveHit(policies, live, now, k, n, i)
        ensures exists a :: a in acls && AclMatches(a, now, k)
      {
        var a := RuleHasMatchingAcl(dir, policies, at, now, acls, k, n, i);
      }
    }
  }

  // ----- the rule that decides

  /** A later live rule that hits ranks as high as the first one or higher. */
  ghost predicate Outranked(policies: seq<Policy>, live: Live, addresses: Addresses, k: Packet) {
    exists n: nat, i: nat, m: nat, j: nat ::
      && First(policies, live, addresses, k, n, i) && LiveHit(policies, live, addresses, k, m, j)
      && (m, j) != (n, i) && Rank(policies, n, i) <= Rank(policies, m, j)
  }

  /** Only a policy of the other kind can outrank: within a kind, a later rule ranks lower. */
  lemma LaterRuleRanksLower(policies: seq<Policy>, n: nat, i: nat, m: nat, j: nat)
    requires Tier(policies) && n <= m < |policies| && i < |policies[n].rules| && j < |policies[m].rules|
    requires (m == n ==> i < j) && policies[m].kind == policies[n].kind
    ensures Rank(policies, m, j) < Rank(policies, n, i)
  {
    assert n < m ==> policies[n].priority < policies[m].priority;
    PriorityReversesOrder(policies[n].kind, policies[n].priority, i, policies[m].priority, j);
  }

  lemma OneKindIsNotOutranked(policies: seq<Policy>, live: Live, addresses: Addresses, k: Packet)
    requires Tier(policies) && OneKind(policies)
    ensures !Outranked(policies, live, addresses, k)
  {
    forall n: nat, i: nat, m: nat, j: nat | First(policies, live, addresses, k, n, i)
        && LiveHit(policies, live, addresses, k, m, j) && (m, j) != (n, i)
      ensures Rank(policies, m, j) < Rank(policies, n, i)
    {
      LaterRuleRanksLower(policies, n, i, m, j);
    }
  }

  /** The ACLs decide the packet as h says, and in no other way. */
  ghost predicate DecideAs(acls: set<Acl>, addresses: Addresses, k: Packet, h: Option<Hit>) {
    forall d :: Decides(acls, addresses, k, d) <==> d == h
  }

  /** If no rule outranks the first, the ACLs decide as the walk over the emitted rules does. */
  lemma NotOutrankedDecides(dir: Direction, policies: seq<Policy>, at: Addresses, now: Addresses, acls: set<Acl>,
                            k: Packet)
    requires TierAcls(dir, policies, at, acls) && !Outranked(policies, EmittedRules(dir, at), now, k)
    ensures DecideAs(acls, now, k, Walk(policies, EmittedRules(dir, at), now, k))
  {
    var live := EmittedRules(dir, at);
    var w := Walk(policies, live, now, k);
    var n := WalkFindsFirst(policies, live, now, k);
    forall d
      ensures Decides(acls, now, k, d) <==> d == w
    {
      AclsDecideByRank(dir, policies, at, now, acls, k, d);
      if w.Some? {
        var i := w.value.index;
        assert Top(policies, live, now, k, n, i);
        if d.Some? && TopHit(policies, live, now, k, d.value) {
          var m: nat, j: nat :| Top(policies, live, now, k, m, j) && d.value == RuleHit(policies[m], j);
          assert (m, j) == (n, i);
        }
      } else if d.Some? {
        assert !TopHit(policies, live, now, k, d.value);
      }
    }
  }

  lemma SameHitSameRule(policies: seq<Policy>, n: nat, i: nat, m: nat, j: nat)
    requires DistinctNames(policies) && n < |policies| && m < |policies|
    requires i < |policies[n].rules| && j < |policies[m].rules| && RuleHit(policies[n], i) == RuleHit(policies[m], j)
    ensures (n, i) == (m, j)
  {
  }

  /** If a rule outranks the first, a rule other than the first is at the top. */
  lemma AnotherTop(dir: Direction, policies: seq<Policy>, at: Addresses, now: Addresses, acls: set<Acl>, k: Packet,
                   n: nat, i: nat, m: nat, j: nat) returns (m': nat, j': nat)
    requires TierAcls(dir, policies, at, acls) && LiveHit(policies, EmittedRules(dir, at), now, k, n, i)
    requires LiveHit(policies, EmittedRules(dir, at), now, k, m, j)
    requires (m, j) != (n, i) && Rank(policies, n, i) <= Rank(policies, m, j)
    ensures Top(policies, EmittedRules(dir, at), now, k, m', j') && (m', j') != (n, i)
  {
    var live := EmittedRules(dir, at);
    var h := SomethingDecides(acls, now, k);
    AclsDecideByRank(dir, policies, at, now, acls, k, h);
    m', j' :| Top(policies, live, now, k, m', j') && h.value == RuleHit(policies[m'], j');
    if (m', j') == (n, i) {
      m', j' := m, j;
    }
  }

  /** If a rule outranks the first, the ACLs may decide in another way. */
  lemma OutrankedDiffers(dir: Direction, policies: seq<Policy>, at: Addresses, now: Addresses, acls: set<Acl>,
                         k: Packet)
    requires DistinctNames(policies) && TierAcls(dir, policies, at, acls)
    requires Outranked(policies, EmittedRules(dir, at), now, k)
    ensures !DecideAs(acls, now, k, Walk(policies, EmittedRules(dir, at), now, k))
  {
    var live := EmittedRules(dir, at);
    var n: nat, i: nat, m: nat, j: nat :|
      && First(policies, live, now, k, n, i) && LiveHit(policies, live, now, k, m, j)
      && (m, j) != (n, i) && Rank(policies, n, i) <= Rank(policies, m, j);
    FirstIsUnique(policies, live, now, k, n, i);
    var m', j' := AnotherTop(dir, policies, at, now, acls, k, n, i, m, j);
    TopIsWinner(dir, policies, at, now, acls, k, m', j');
    if RuleHit(policies[m'], j') == RuleHit(policies[n], i) {
      SameHitSameRule(policies, n, i, m', j');
    }
  }

  lemma {:induction false} SkippedRulesInPolicy(dir: Direction, p: Policy, i: nat, addresses: Addresses, k: Packet)
    requires i <= |p.rules|
    ensures WalkRules(p, i, EmittedRules(dir, addresses), addresses, k) == WalkRules(p, i, AllRules, addresses, k)
    decreases |p.rules| - i
  {
    if i < |p.rules| {
      SkippedRulesInPolicy(dir, p, i + 1, addresses, k);
    }
  }

  lemma {:induction false} SkippedRulesNeverHit(dir: Direction, policies: seq<Policy>, addresses: Addresses, k: Packet)
    ensures Walk(policies, EmittedRules(dir, addresses), addresses, k) == Walk(policies, AllRules, addresses, k)
  {
    if policies != [] {
      SkippedRulesInPolicy(dir, policies[0], 0, addresses, k);
      SkippedRulesNeverHit(dir, policies[1..], addresses, k);
    }
  }

  lemma SkippedRulesDoNotCount(dir: Direction, policies: seq<Policy>, addresses: Addresses, k: Packet, n: nat, i: nat)
    ensures LiveHit(policies, EmittedRules(dir, addresses), addresses, k, n, i)
      <==> LiveHit(policies, AllRules, addresses, k, n, i)
  {
  }

  lemma SkippedRulesDoNotOutrank(dir: Direction, policies: seq<Policy>, addresses: Addresses, k: Packet)
    ensures Outranked(policies, EmittedRules(dir, addresses), addresses, k) <==>
      Outranked(policies, AllRules, addresses, k)
  {
    var live := EmittedRules(dir, addresses);
    forall n: nat, i: nat
      ensures LiveHit(policies, live, addresses, k, n, i) <==> LiveHit(policies, AllRules, addresses, k, n, i)
    {
      SkippedRulesDoNotCount(dir, policies, addresses, k, n, i);
    }
    forall n: nat, i: nat
      ensures First(policies, live, addresses, k, n, i) <==> First(policies, AllRules, addresses, k, n, i)
    {
    }
  }

  /** The ACLs mean the rules. In a tier of one kind, highest-priority-first evaluation of the ACLs decides every
      packet as walking the policies by ascending priority, and their rules in order, does: whichever of the matching
      ACLs of the highest priority is taken stands for the rule the walk finds, and none matches exactly when no rule
      hits. In a tier of both kinds this holds of a packet exactly when no rule outranks the one the walk finds. */
  lemma CompilationPreservesMeaning(dir: Direction, policies: seq<Policy>, addresses: Addresses, acls: set<Acl>,
                                    k: Packet)
    requires Tier(policies) && TierAcls(dir, policies, addresses, acls)
    ensures OneKind(policies) ==> DecideAs(acls, addresses, k, Walk(policies, AllRules, addresses, k))
    ensures DistinctNames(policies) ==>
      (DecideAs(acls, addresses, k, Walk(policies, AllRules, addresses, k))
       <==> !Outranked(policies, AllRules, addresses, k))
  {
    SkippedRulesNeverHit(dir, policies, addresses, k);
    SkippedRulesDoNotOutrank(dir, policies, addresses, k);
    if OneKind(policies) {
      OneKindIsNotOutranked(policies, AllRules, addresses, k);
    }
    if !Outranked(policies, AllRules, addresses, k) {
      NotOutrankedDecides(dir, policies, addresses, addresses, acls, k);
    } else if DistinctNames(policies) {
      OutrankedDiffers(dir, policies, addresses, addresses, acls, k);
    }
  }

  // ----- the verdict, in a tier of both kinds

  function VerdictOf(h: Option<Hit>): Option<Verdict> {
    if h.Some? then Some(h.value.verdict) else None
  }

  /** Whatever way the ACLs decide the packet, its verdict is that of the walk. */
  ghost predicate MeaningKept(policies: seq<Policy>, addresses: Addresses, acls: set<Acl>, k: Packet) {
    forall h :: Decides(acls, addresses, k, h) ==> VerdictOf(h) == VerdictOf(Walk(policies, AllRules, addresses, k))
  }

  function CostOf(policies: seq<Policy>, n: nat, i: nat): int
    requires n < |policies|
  {
    Cost(policies[n].kind, policies[n].priority, i)
  }

  /** The walk decides the packet by rule (n, i); the later rule (m, j), of a policy of the other kind, hits it too,
      gives another verdict, and its place 100 a + i or 25 c + j is before that of (n, i) or the same, with no hit
      before it. */
  ghost predicate Overrules(policies: seq<Policy>, addresses: Addresses, k: Packet, n: nat, i: nat, m: nat, j: nat) {
    && First(policies, AllRules, addresses, k, n, i) && LiveHit(policies, AllRules, addresses, k, m, j)
    && n < m && policies[n].kind != policies[m].kind
    && RuleVerdict(policies[n].rules[i].action) != RuleVerdict(policies[m].rules[j].action)
    && CostOf(policies, m, j) <= CostOf(policies, n, i)
    && forall m': nat, j': nat :: LiveHit(policies, AllRules, addresses, k, m', j') ==>
         CostOf(policies, m, j) <= CostOf(policies, m', j')
  }

  lemma RankIsCost(policies: seq<Policy>, n: nat, i: nat)
    requires Tier(policies) && n < |policies|
    ensures Rank(policies, n, i) == AclMax - CostOf(policies, n, i)
  {
    NoOverflow(policies[n].kind, policies[n].priority, i);
  }

  /** A rule at the top with another verdict than the walk's overrules it. */
  lemma TopOverrules(policies: seq<Policy>, addresses: Addresses, k: Packet, n: nat, i: nat, m: nat, j: nat)
    requires Tier(policies) && First(policies, AllRules, addresses, k, n, i)
    requires Top(policies, AllRules, addresses, k, m, j)
    requires RuleVerdict(policies[n].rules[i].action) != RuleVerdict(policies[m].rules[j].action)
    ensures Overrules(policies, addresses, k, n, i, m, j)
  {
    if policies[n].kind == policies[m].kind {
      LaterRuleRanksLower(policies, n, i, m, j);
    }
    RankIsCost(policies, n, i);
    RankIsCost(policies, m, j);
    forall m': nat, j': nat | LiveHit(policies, AllRules, addresses, k, m', j')
      ensures CostOf(policies, m, j) <= CostOf(policies, m', j')
    {
      RankIsCost(policies, m', j');
    }
  }

  lemma OverrulingIsTop(policies: seq<Policy>, addresses: Addresses, k: Packet, n: nat, i: nat, m: nat, j: nat)
    requires Tier(policies) && Overrules(policies, addresses, k, n, i, m, j)
    ensures Top(policies, AllRules, addresses, k, m, j)
  {
    RankIsCost(policies, m, j);
    forall m': nat, j': nat | LiveHit(policies, AllRules, addresses, k, m', j')
      ensures Rank(policies, m', j') <= Rank(policies, m, j)
    {
      RankIsCost(policies, m', j');
    }
  }

  lemma SameTops(dir: Direction, policies: seq<Policy>, addresses: Addresses, k: Packet, n: nat, i: nat)
    ensures Top(policies, EmittedRules(dir, addresses), addresses, k, n, i) <==>
      Top(policies, AllRules, addresses, k, n, i)
  {
    forall m: nat, j: nat
      ensures LiveHit(policies, EmittedRules(dir, addresses), addresses, k, m, j)
        <==> LiveHit(policies, AllRules, addresses, k, m, j)
    {
      SkippedRulesDoNotCount(dir, policies, addresses, k, m, j);
    }
  }

  lemma KeptUnlessOverruled(dir: Direction, policies: seq<Policy>, addresses: Addresses, acls: set<Acl>, k: Packet)
    requires Tier(policies) && TierAcls(dir, policies, addresses, acls)
    requires forall n: nat, i: nat, m: nat, j: nat :: !Overrules(policies, addresses, k, n, i, m, j)
    ensures MeaningKept(policies, addresses, acls, k)
  {
    var live := EmittedRules(dir, addresses);
    var w := Walk(policies, AllRules, addresses, k);
    var n := WalkFindsFirst(policies, AllRules, addresses, k);
    forall h | Decides(acls, addresses, k, h)
      ensures VerdictOf(h) == VerdictOf(w)
    {
      AclsDecideByRank(dir, policies, addresses, addresses, acls, k, h);
      if h.None? {
        if w.Some? {
          SkippedRulesDoNotCount(dir, policies, addresses, k, n, w.value.index);
        }
      } else {
        var m: nat, j: nat :| Top(policies, live, addresses, k, m, j) && h.value == RuleHit(policies[m], j);
        SameTops(dir, policies, addresses, k, m, j);
        assert LiveHit(policies, AllRules, addresses, k, m, j);
        if VerdictOf(h) != VerdictOf(w) {
          TopOverrules(policies, addresses, k, n, w.value.index, m, j);
        }
      }
    }
  }

  lemma OverruledIsNotKept(dir: Direction, policies: seq<Policy>, addresses: Addresses, acls: set<Acl>, k: Packet,
                           n: nat, i: nat, m: nat, j: nat)
    requires Tier(policies) && TierAcls(dir, policies, addresses, acls) && Overrules(policies, addresses, k, n, i, m, j)
    ensures !MeaningKept(policies, addresses, acls, k)
  {
    OverrulingIsTop(policies, addresses, k, n, i, m, j);
    SameTops(dir, policies, addresses, k, m, j);
    TopIsWinner(dir, policies, addresses, addresses, acls, k, m, j);
    FirstIsUnique(policies, AllRules, addresses, k, n, i);
  }

  /** For every tier of admin and cluster policies: the ACLs give every packet the verdict of the walk if and only if
      there is no packet whose deciding rule a later rule of the other kind overrules, being before it or tied with it
      under 100 times the priority plus the index of an admin rule against 25 times that plus the index of a cluster
      rule. */
  lemma MixedTierMeaningIff(dir: Direction, policies: seq<Policy>, addresses: Addresses, acls: set<Acl>)
    requires Tier(policies) && TierAcls(dir, policies, addresses, acls)
    ensures (forall k :: MeaningKept(policies, addresses, acls, k))
      <==> !exists k, n: nat, i: nat, m: nat, j: nat :: Overrules(policies, addresses, k, n, i, m, j)
  {
    if k, n: nat, i: nat, m: nat, j: nat :| Overrules(policies, addresses, k, n, i, m, j) {
      OverruledIsNotKept(dir, policies, addresses, acls, k, n, i, m, j);
    } else {
      forall k
        ensures MeaningKept(policies, addresses, acls, k)
      {
        KeptUnlessOverruled(dir, policies, addresses, acls, k);
      }
    }
  }

  // ----- the condition on the policies alone

  predicate SomePacket(s: PortSpec) {
    s.Number? || (s.Range? && s.first <= s.last)
  }

  function Lowest(s: PortSpec): nat {
    if s.Number? then s.port else if s.Range? then s.first else 0
  }

  function Highest(s: PortSpec): nat {
    if s.Number? then s.port else if s.Range? then s.last else 0
  }

  /** Two ports have a packet in common: the same protocol, and the higher of their lowest destinations in both. */
  predicate PortsMeet(s: PortSpec, t: PortSpec) {
    && !s.Unsupported? && !t.Unsupported? && s.protocol == t.protocol
    && Lowest(s) <= Highest(t) && Lowest(t) <= Highest(s) && SomePacket(s) && SomePacket(t)
  }

  /** Two lists of ports have a packet in common. */
  predicate ListsMeet(a: seq<PortSpec>, b: seq<PortSpec>) {
    if a == [] && b == [] then true
    else if a == [] then exists t :: t in b && SomePacket(t)
    else if b == [] then exists s :: s in a && SomePacket(s)
    else exists s, t :: s in a && t in b && PortsMeet(s, t)
  }

  /** The packet with the lowest destination that a port hits. */
  function LowestPacket(s: PortSpec, port: string, peer: nat): Packet {
    Packet(port, V4, peer, if s.Unsupported? then "" else s.protocol, Lowest(s))
  }

  lemma MeetingPacket(a: seq<PortSpec>, b: seq<PortSpec>, port: string, peer: nat) returns (k: Packet)
    requires ListsMeet(a, b)
    ensures PortsHit(a, k) && PortsHit(b, k) && k.port == port && k.family == V4 && k.peer == peer
  {
    if a == [] && b == [] {
      k := Packet(port, V4, peer, "", 0);
    } else if a == [] || b == [] {
      var s :| s in a + b && SomePacket(s);
      k := LowestPacket(s, port, peer);
    } else {
      var s, t :| s in a && t in b && PortsMeet(s, t);
      k := LowestPacket(if Lowest(s) < Lowest(t) then t else s, port, peer);
      assert PortHits(s, k) && PortHits(t, k);
    }
  }

  lemma MeetIfHit(a: seq<PortSpec>, b: seq<PortSpec>, k: Packet)
    requires PortsHit(a, k) && PortsHit(b, k)
    ensures ListsMeet(a, b)
  {
    if a != [] && b != [] {
      var s :| s in a && PortHits(s, k);
      var t :| t in b && PortHits(t, k);
      assert PortsMeet(s, t);
    }
  }

  /** A rule and a later one, of policies of different kinds, that some pod and some packet have in common, that give
      different verdicts, and whose places 100 a + i and 25 c + j are inverted or tied. */
  predicate Clash(policies: seq<Policy>, n: nat, i: nat, m: nat, j: nat) {
    && n < m < |policies| && i < |policies[n].rules| && j < |policies[m].rules|
    && policies[n].kind != policies[m].kind && CostOf(policies, m, j) <= CostOf(policies, n, i)
    && RuleVerdict(policies[n].rules[i].action) != RuleVerdict(policies[m].rules[j].action)
    && policies[n].subject * policies[m].subject != {}
    && ListsMeet(policies[n].rules[i].ports, policies[m].rules[j].ports)
  }

  lemma OverrulingClashes(policies: seq<Policy>, addresses: Addresses, k: Packet, n: nat, i: nat, m: nat, j: nat)
    requires Overrules(policies, addresses, k, n, i, m, j)
    ensures Clash(policies, n, i, m, j)
  {
    MeetIfHit(policies[n].rules[i].ports, policies[m].rules[j].ports, k);
    assert k.port in policies[n].subject * policies[m].subject;
  }

  /** Address sets in which only two rules have an address. */
  function OnlyThese(a: AddressSet, b: AddressSet): Addresses {
    (s: AddressSet) => if s == a || s == b then [Net(7, 7)] else []
  }

  /** With these, no other rule hits a packet. */
  lemma OnlyTheseHit(policies: seq<Policy>, n: nat, i: nat, m: nat, j: nat, k: Packet)
    requires DistinctNames(policies) && n < |policies| && m < |policies|
    requires i < |policies[n].rules| && j < |policies[m].rules|
    ensures var addresses := OnlyThese(AddressSet(policies[n].name, i, V4), AddressSet(policies[m].name, j, V4));
      forall m': nat, j': nat :: LiveHit(policies, AllRules, addresses, k, m', j') ==> (m', j') in {(n, i), (m, j)}
  {
    var addresses := OnlyThese(AddressSet(policies[n].name, i, V4), AddressSet(policies[m].name, j, V4));
    forall m': nat, j': nat | LiveHit(policies, AllRules, addresses, k, m', j')
      ensures (m', j') in {(n, i), (m, j)}
    {
      assert addresses(AddressSet(policies[m'].name, j', k.family)) != [];
      assert policies[m'].name == policies[n].name || policies[m'].name == policies[m].name;
    }
  }

  lemma ClashOverrules(policies: seq<Policy>, n: nat, i: nat, m: nat, j: nat) returns (addresses: Addresses, k: Packet)
    requires DistinctNames(policies) && Clash(policies, n, i, m, j)
    ensures Overrules(policies, addresses, k, n, i, m, j)
  {
    var a, b := AddressSet(policies[n].name, i, V4), AddressSet(policies[m].name, j, V4);
    addresses := OnlyThese(a, b);
    var port :| port in policies[n].subject * policies[m].subject;
    k := MeetingPacket(policies[n].rules[i].ports, policies[m].rules[j].ports, port, 7);
    assert addresses(a)[0] == Net(7, 7) && addresses(b)[0] == Net(7, 7);
    assert LiveHit(policies, AllRules, addresses, k, n, i) && LiveHit(policies, AllRules, addresses, k, m, j);
    OnlyTheseHit(policies, n, i, m, j, k);
  }

  lemma CompiledTier(dir: Direction, policies: seq<Policy>, addresses: Addresses) returns (acls: set<Acl>)
    ensures TierAcls(dir, policies, addresses, acls)
  {
    acls := set n, a | 0 <= n < |policies| && a in Compiled(dir, policies[n], addresses) :: a;
  }

  /** The ACLs of a tier give every packet the verdict of the walk, whatever the address sets hold. */
  ghost predicate AlwaysKept(dir: Direction, policies: seq<Policy>) {
    forall addresses, acls, k ::
      TierAcls(dir, policies, addresses, acls) ==> MeaningKept(policies, addresses, acls, k)
  }

  /** For every tier of admin and cluster policies: the ACLs give every packet the verdict of the walk, whatever the
      address sets hold, if and only if no two rules clash, which the policies alone show. */
  lemma TierKeepsMeaningIff(dir: Direction, policies: seq<Policy>)
    requires Tier(policies) && DistinctNames(policies)
    ensures AlwaysKept(dir, policies) <==> forall n: nat, i: nat, m: nat, j: nat :: !Clash(policies, n, i, m, j)
  {
    if n: nat, i: nat, m: nat, j: nat :| Clash(policies, n, i, m, j) {
      var addresses, k := ClashOverrules(policies, n, i, m, j);
      var acls := CompiledTier(dir, policies, addresses);
      OverruledIsNotKept(dir, policies, addresses, acls, k, n, i, m, j);
    } else {
      forall addresses, acls, k | TierAcls(dir, policies, addresses, acls)
        ensures MeaningKept(policies, addresses, acls, k)
      {
        forall n: nat, i: nat, m: nat, j: nat
          ensures !Overrules(policies, addresses, k, n, i, m, j)
        {
          if Overrules(policies, addresses, k, n, i, m, j) {
            OverrulingClashes(policies, addresses, k, n, i, m, j);
          }
        }
        KeptUnlessOverruled(dir, policies, addresses, acls, k);
      }
    }
  }

  /** It is enough that no two rules of different kinds that hit one packet with different verdicts are inverted or
      tied. */
  lemma NoInversionKeepsMeaning(dir: Direction, policies: seq<Policy>, addresses: Addresses, acls: set<Acl>, k: Packet)
    requires Tier(policies) && TierAcls(dir, policies, addresses, acls)
    requires forall n: nat, i: nat, m: nat, j: nat ::
      && n < m && LiveHit(policies, AllRules, addresses, k, n, i) && LiveHit(policies, AllRules, addresses, k, m, j)
      && policies[n].kind != policies[m].kind
      && RuleVerdict(policies[n].rules[i].action) != RuleVerdict(policies[m].rules[j].action)
      ==> CostOf(policies, n, i) < CostOf(policies, m, j)
    ensures MeaningKept(policies, addresses, acls, k)
  {
    KeptUnlessOverruled(dir, policies, addresses, acls, k);
  }

  const Everywhere: Addresses := (s: AddressSet) => [Net(7, 7)]

  function OneRule(kind: Kind, name: string, priority: int, action: RuleAction): Policy {
    Policy(kind, name, priority, {"pod"}, [Rule(action, [], false)])
  }

  const ToPod: Packet := Packet("pod", V4, 7, "tcp", 80)

  lemma OneRuleHits(p: Policy)
    requires p.subject == {"pod"} && |p.rules| == 1 && p.rules[0].ports == []
    ensures RuleHits(p, 0, Everywhere, ToPod)
  {
    assert Everywhere(AddressSet(p.name, 0, V4))[0].first <= 7 <= Everywhere(AddressSet(p.name, 0, V4))[0].last;
  }

  const Inverted: seq<Policy> := [OneRule(Anp, "a", 1, Deny), OneRule(Cnp, "c", 2, Accept)]

  lemma InvertedRanks()
    ensures Tier(Inverted) && DistinctNames(Inverted) && Rank(Inverted, 0, 0) == 29900 && Rank(Inverted, 1, 0) == 29950
    ensures Walk(Inverted, AllRules, Everywhere, ToPod) == Some(Hit("a", 0, Denied))
    ensures Top(Inverted, EmittedRules(Ingress, Everywhere), Everywhere, ToPod, 1, 0)
    ensures !Top(Inverted, EmittedRules(Ingress, Everywhere), Everywhere, ToPod, 0, 0)
  {
    OneRuleHits(Inverted[0]);
    OneRuleHits(Inverted[1]);
    assert LiveHit(Inverted, EmittedRules(Ingress, Everywhere), Everywhere, ToPod, 1, 0);
  }

  /** An admin policy at priority 1 that denies yields to a cluster policy at priority 2 that accepts, for the same
      pod and peer: the walk denies the packet, and the ACLs, at 29900 and 29950, let it through. */
  lemma MixedTierCanInvert(acls: set<Acl>)
    requires TierAcls(Ingress, Inverted, Everywhere, acls)
    ensures Inverted == [OneRule(Anp, "a", 1, Deny), OneRule(Cnp, "c", 2, Accept)] && Tier(Inverted)
    ensures Walk(Inverted, AllRules, Everywhere, ToPod) == Some(Hit("a", 0, Denied))
    ensures DecideAs(acls, Everywhere, ToPod, Some(Hit("c", 0, Allowed)))
  {
    InvertedRanks();
    forall h
      ensures Decides(acls, Everywhere, ToPod, h) <==> h == Some(Hit("c", 0, Allowed))
    {
      AclsDecideByRank(Ingress, Inverted, Everywhere, Everywhere, acls, ToPod, h);
      if h.Some? && TopHit(Inverted, EmittedRules(Ingress, Everywhere), Everywhere, ToPod, h.value) {
        var n: nat, i: nat :| Top(Inverted, EmittedRules(Ingress, Everywhere), Everywhere, ToPod, n, i)
          && h.value == RuleHit(Inverted[n], i);
        assert i == 0 && n == 1;
      }
      assert RuleHit(Inverted[1], 0) == Hit("c", 0, Allowed);
    }
  }

  /** An inverted pair does no harm where an earlier rule decides every packet that both hit, so it does not by itself
      change a verdict. */
  lemma ShadowedInversionIsHarmless(acls: set<Acl>)
    requires TierAcls(Ingress, [OneRule(Cnp, "z", 0, Accept), OneRule(Anp, "a", 1, Deny), OneRule(Cnp, "c", 2, Accept)],
                      Everywhere, acls)
    ensures var policies := [OneRule(Cnp, "z", 0, Accept), OneRule(Anp, "a", 1, Deny), OneRule(Cnp, "c", 2, Accept)];
      && Tier(policies) && CostOf(policies, 2, 0) < CostOf(policies, 1, 0)
      && forall k :: MeaningKept(policies, Everywhere, acls, k)
  {
    var policies := [OneRule(Cnp, "z", 0, Accept), OneRule(Anp, "a", 1, Deny), OneRule(Cnp, "c", 2, Accept)];
    forall k
      ensures MeaningKept(policies, Everywhere, acls, k)
    {
      forall n: nat, i: nat, m: nat, j: nat
        ensures !Overrules(policies, Everywhere, k, n, i, m, j)
      {
        if LiveHit(policies, AllRules, Everywhere, k, n, i) {
          assert LiveHit(policies, AllRules, Everywhere, k, 0, 0);
        }
      }
      KeptUnlessOverruled(Ingress, policies, Everywhere, acls, k);
    }
  }

  // ----- address sets refreshed without recompiling

  /** The rule that decides the packet now, if any, was given ACLs for the packet's family when it was compiled. */
  ghost predicate DecidingRuleEmitted(dir: Direction, policies: seq<Policy>, at: Addresses, now: Addresses, k: Packet) {
    forall n: nat, i: nat :: First(policies, AllRules, now, k, n, i) ==> Emits(dir, policies[n], i, k.family, at)
  }

  lemma EmittedFirst(dir: Direction, policies: seq<Policy>, at: Addresses, now: Addresses, k: Packet)
    requires DecidingRuleEmitted(dir, policies, at, now, k)
    ensures Walk(policies, EmittedRules(dir, at), now, k) == Walk(policies, AllRules, now, k)
  {
    var live := EmittedRules(dir, at);
    var n := WalkFindsFirst(policies, AllRules, now, k);
    var m := WalkFindsFirst(policies, live, now, k);
    assert forall m: nat, j: nat :: LiveHit(policies, live, now, k, m, j) ==> LiveHit(policies, AllRules, now, k, m, j);
    var w := Walk(policies, AllRules, now, k);
    if w.Some? {
      assert First(policies, live, now, k, n, w.value.index);
      FirstIsUnique(policies, live, now, k, n, w.value.index);
    }
  }

  /** If the deciding rule had no ACLs, the ACLs do not decide as it does. */
  lemma NotEmittedDiffers(dir: Direction, policies: seq<Policy>, at: Addresses, now: Addresses, acls: set<Acl>,
                          k: Packet)
    requires DistinctNames(policies) && TierAcls(dir, policies, at, acls)
    requires !DecidingRuleEmitted(dir, policies, at, now, k)
    ensures !Decides(acls, now, k, Walk(policies, AllRules, now, k))
  {
    var n: nat, i: nat :| First(policies, AllRules, now, k, n, i) && !Emits(dir, policies[n], i, k.family, at);
    FirstIsUnique(policies, AllRules, now, k, n, i);
    var live := EmittedRules(dir, at);
    var h := Some(RuleHit(policies[n], i));
    AclsDecideByRank(dir, policies, at, now, acls, k, h);
    forall m: nat, j: nat | Top(policies, live, now, k, m, j)
      ensures h.value != RuleHit(policies[m], j)
    {
      if h.value == RuleHit(policies[m], j) { SameHitSameRule(policies, n, i, m, j); }
    }
  }

  /** Refreshing the address sets without recompiling keeps the meaning for a packet exactly when the rule that
      decides it now was given ACLs for its family back then, because its address set had entries or domain names made
      it be emitted anyway, and no other such rule outranks it, which in a tier of one kind none does. */
  lemma RefreshKeepsMeaning(dir: Direction, policies: seq<Policy>, at: Addresses, now: Addresses, acls: set<Acl>,
                            k: Packet)
    requires Tier(policies) && DistinctNames(policies) && TierAcls(dir, policies, at, acls)
    ensures DecideAs(acls, now, k, Walk(policies, AllRules, now, k))
      <==> DecidingRuleEmitted(dir, policies, at, now, k) && !Outranked(policies, EmittedRules(dir, at), now, k)
    ensures OneKind(policies) ==> !Outranked(policies, EmittedRules(dir, at), now, k)
  {
    if OneKind(policies) {
      OneKindIsNotOutranked(policies, EmittedRules(dir, at), now, k);
    }
    if !DecidingRuleEmitted(dir, policies, at, now, k) {
      NotEmittedDiffers(dir, policies, at, now, acls, k);
    } else {
      EmittedFirst(dir, policies, at, now, k);
      if Outranked(policies, EmittedRules(dir, at), now, k) {
        OutrankedDiffers(dir, policies, at, now, acls, k);
      } else {
        NotOutrankedDecides(dir, policies, at, now, acls, k);
      }
    }
  }

  /** The counterpart: an egress rule that names domains, or is in a cluster policy that does, decides the packets it is
      about when their addresses arrive later, whatever the address sets held when it was compiled, empty ones included;
      for all tiers of one kind, and otherwise where no rule outranks it. */
  lemma DomainRuleTakesEffect(policies: seq<Policy>, at: Addresses, now: Addresses, acls: set<Acl>, k: Packet, n: nat,
                              i: nat)
    requires Tier(policies) && DistinctNames(policies) && TierAcls(Egress, policies, at, acls)
    requires First(policies, AllRules, now, k, n, i)
    requires || (policies[n].kind == Anp && policies[n].rules[i].hasDomains)
             || (policies[n].kind == Cnp && exists j :: 0 <= j < |policies[n].rules| && policies[n].rules[j].hasDomains)
    requires OneKind(policies) || !Outranked(policies, EmittedRules(Egress, at), now, k)
    ensures DecideAs(acls, now, k, Some(Hit(policies[n].name, i, RuleVerdict(policies[n].rules[i].action))))
  {
    FirstIsUnique(policies, AllRules, now, k, n, i);
    assert forall m: nat, j: nat :: First(policies, AllRules, now, k, m, j) ==> (m, j) == (n, i);
    RefreshKeepsMeaning(Egress, policies, at, now, acls, k);
  }

  /** A deny rule compiled while its address set was empty does not take effect when addresses arrive later. */
  lemma RuleSkippedWhenEmpty(acls: set<Acl>)
    requires TierAcls(Ingress, [OneRule(Cnp, "p", 0, Deny)], (s: AddressSet) => [], acls)
    ensures var policies := [OneRule(Cnp, "p", 0, Deny)];
      && Walk(policies, AllRules, Everywhere, ToPod) == Some(Hit("p", 0, Denied))
      && DecideAs(acls, Everywhere, ToPod, None)
  {
    var empty: Addresses := (s: AddressSet) => [];
    var policies := [OneRule(Cnp, "p", 0, Deny)];
    OneRuleHits(policies[0]);
    assert forall n: nat, i: nat :: !LiveHit(policies, EmittedRules(Ingress, empty), Everywhere, ToPod, n, i);
    forall h
      ensures Decides(acls, Everywhere, ToPod, h) <==> h == None
    {
      AclsDecideByRank(Ingress, policies, empty, Everywhere, acls, ToPod, h);
    }
  }
}
