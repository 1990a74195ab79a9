/** The two-way priority maps of the network policy tiers: which policy holds which priority. Admin policies and cluster
    policies of the admin tier share one pair of maps; cluster policies of the baseline tier have the other. */
module PriorityMaps {
  import opened Common
  import AclCompilation

  datatype Tier = Admin | Baseline | UnknownTier

  /** What validation looks at; `peersOk` is the check of domains and networks per peer. */
  datatype Cnp = Cnp(name: string, tier: Tier, priority: int, ingress: nat, egress: nat, peersOk: bool)

  datatype Anp = Anp(name: string, priority: int, ingress: nat, egress: nat)

  /** The maps of one tier. */
  datatype Book = Book(byPriority: map<int, string>, byName: map<string, int>)

  datatype Maps = Maps(admin: Book, baseline: Book)

  datatype Event = AddAnp(anp: Anp) | DeleteAnp(anp: Anp) | AddCnp(cnp: Cnp) | DeleteCnp(cnp: Cnp)

  function BookOf(m: Maps, tier: Tier): Book
    requires !tier.UnknownTier?
  {
    if tier.Admin? then m.admin else m.baseline
  }

  function SetBook(m: Maps, tier: Tier, b: Book): Maps
    requires !tier.UnknownTier?
  {
    if tier.Admin? then m.(admin := b) else m.(baseline := b)
  }

  /** The priority is free, or already this policy's. */
  predicate Available(b: Book, name: string, priority: int) {
    priority in b.byPriority ==> b.byPriority[priority] == name
  }

  predicate AnpValid(m: Maps, p: Anp) {
    && Available(m.admin, p.name, p.priority) && p.priority <= AclCompilation.MaxPriority(AclCompilation.Anp)
    && p.ingress <= AclCompilation.MaxRules(AclCompilation.Anp)
    && p.egress <= AclCompilation.MaxRules(AclCompilation.Anp)
  }

  predicate CnpValid(m: Maps, p: Cnp) {
    && !p.tier.UnknownTier? && Available(BookOf(m, p.tier), p.name, p.priority)
    && 0 <= p.priority <= AclCompilation.MaxPriority(AclCompilation.Cnp)
    && p.ingress <= AclCompilation.MaxRules(AclCompilation.Cnp)
    && p.egress <= AclCompilation.MaxRules(AclCompilation.Cnp)
    && p.peersOk
  }

  function Record(b: Book, name: string, priority: int): Book {
    Book(b.byPriority[priority := name], b.byName[name := priority])
  }

  function Delete(b: Book, name: string, priority: int): Book {
    Book(b.byPriority - {priority}, b.byName - {name})
  }

  function Wipe(b: Book, name: string): Book {
    if name in b.byName then Delete(b, name, b.byName[name]) else b
  }

  function AnpAdded(b: Book, p: Anp): Book {
    var freed := if p.name in b.byName && b.byName[p.name] != p.priority
      then b.(byPriority := b.byPriority - {b.byName[p.name]}) else b;
    Record(freed, p.name, p.priority)
  }

  function CnpAdded(m: Maps, p: Cnp): Maps
    requires !p.tier.UnknownTier?
  {
    var wiped := Maps(Wipe(m.admin, p.name), Wipe(m.baseline, p.name));
    SetBook(wiped, p.tier, Record(BookOf(wiped, p.tier), p.name, p.priority))
  }

  function Step(m: Maps, e: Event): Maps {
    match e
    case AddAnp(p) => if AnpValid(m, p) then m.(admin := AnpAdded(m.admin, p)) else m
    case DeleteAnp(p) => m.(admin := Delete(m.admin, p.name, p.priority))
    case AddCnp(p) => if CnpValid(m, p) then CnpAdded(m, p) else m
    case DeleteCnp(p) =>
      if p.tier.UnknownTier? then m else SetBook(m, p.tier, Delete(BookOf(m, p.tier), p.name, p.priority))
  }

  const Empty: Maps := Maps(Book(map[], map[]), Book(map[], map[]))

  function Run(events: seq<Event>): Maps {
    if events == [] then Empty else Step(Run(events[..|events| - 1]), events[|events| - 1])
  }

  // ----- the maps as the controller updates them

  class Controller {
    var anpPrioName: map<int, string>
    var anpNamePrio: map<string, int>
    var bnpPrioName: map<int, string>
    var bnpNamePrio: map<string, int>

    function State(): Maps
      reads this
    {
      Maps(Book(anpPrioName, anpNamePrio), Book(bnpPrioName, bnpNamePrio))
    }

    constructor ()
      ensures State() == Empty
    {
      anpPrioName, anpNamePrio, bnpPrioName, bnpNamePrio := map[], map[], map[], map[];
    }

    method HandleAddAnp(p: Anp) returns (ok: bool)
      modifies this
      ensures State() == Step(old(State()), AddAnp(p)) && ok == AnpValid(old(State()), p)
    {
      if p.priority in anpPrioName && anpPrioName[p.priority] != p.name {
        return false;
      }
      if p.priority > AclCompilation.MaxPriority(AclCompilation.Anp) {
        return false;
      }
      var most := AclCompilation.MaxRules(AclCompilation.Anp);
      if p.ingress > most || p.egress > most {
        return false;
      }
      if p.name in anpNamePrio && anpNamePrio[p.name] != p.priority {
        anpPrioName := anpPrioName - {anpNamePrio[p.name]};
      }
      anpPrioName := anpPrioName[p.priority := p.name];
      anpNamePrio := anpNamePrio[p.name := p.priority];
      return true;
    }

    method HandleDeleteAnp(p: Anp)
      modifies this
      ensures State() == Step(old(State()), DeleteAnp(p))
    {
      anpPrioName := anpPrioName - {p.priority};
      anpNamePrio := anpNamePrio - {p.name};
    }

    method WipeCnpPriorityMapEntries(name: string)
      modifies this
      ensures State() == Maps(Wipe(old(State()).admin, name), Wipe(old(State()).baseline, name))
    {
      var tiers := [Admin, Baseline];
      for i := 0 to |tiers|
        invariant State().admin == if i > 0 then Wipe(old(State()).admin, name) else old(State()).admin
        invariant State().baseline == if i > 1 then Wipe(old(State()).baseline, name) else old(State()).baseline
      {
        if tiers[i].Admin? {
          if name in anpNamePrio {
            anpPrioName := anpPrioName - {anpNamePrio[name]};
            anpNamePrio := anpNamePrio - {name};
          }
        } else if name in bnpNamePrio {
          bnpPrioName := bnpPrioName - {bnpNamePrio[name]};
          bnpNamePrio := bnpNamePrio - {name};
        }
      }
    }

    method ValidateCnpConfig(p: Cnp) returns (ok: bool)
      ensures ok == CnpValid(State(), p)
    {
      if p.tier.UnknownTier? {
        return false;
      }
      var prioName := if p.tier.Admin? then anpPrioName else bnpPrioName;
      if p.priority in prioName && prioName[p.priority] != p.name {
        return false;
      }
      if p.priority > AclCompilation.MaxPriority(AclCompilation.Cnp) || p.priority < 0 {
        return false;
      }
      var most := AclCompilation.MaxRules(AclCompilation.Cnp);
      if p.ingress > most || p.egress > most {
        return false;
      }
      return p.peersOk;
    }

    method UpdateCnpPriorityMapEntries(p: Cnp)
      requires !p.tier.UnknownTier?
      modifies this
      ensures State() == CnpAdded(old(State()), p)
    {
      WipeCnpPriorityMapEntries(p.name);
      if p.tier.Admin? {
        anpPrioName := anpPrioName[p.priority := p.name];
        anpNamePrio := anpNamePrio[p.name := p.priority];
      } else {
        bnpPrioName := bnpPrioName[p.priority := p.name];
        bnpNamePrio := bnpNamePrio[p.name := p.priority];
      }
    }

    method HandleAddCnp(p: Cnp) returns (ok: bool)
      modifies this
      ensures State() == Step(old(State()), AddCnp(p)) && ok == CnpValid(old(State()), p)
    {
      ok := ValidateCnpConfig(p);
      if ok {
        UpdateCnpPriorityMapEntries(p);
      }
    }

    method DeleteCnpPriorityMapEntries(p: Cnp) returns (ok: bool)
      modifies this
      ensures State() == Step(old(State()), DeleteCnp(p)) && ok == !p.tier.UnknownTier?
    {
      if p.tier.UnknownTier? {
        return false;
      }
      if p.tier.Admin? {
        anpPrioName := anpPrioName - {p.priority};
        anpNamePrio := anpNamePrio - {p.name};
      } else {
        bnpPrioName := bnpPrioName - {p.priority};
        bnpNamePrio := bnpNamePrio - {p.name};
      }
      return true;
    }
  }

  // ----- mutually inverse

  predicate Inverse(b: Book) {
    && (forall p :: p in b.byPriority ==> b.byPriority[p] in b.byName && b.byName[b.byPriority[p]] == p)
    && (forall n :: n in b.byName ==> b.byName[n] in b.byPriority && b.byPriority[b.byName[n]] == n)
  }

  predicate Consistent(m: Maps) {
    Inverse(m.admin) && Inverse(m.baseline)
  }

  /** A delete that names the recorded priority of its policy, or finds neither the priority nor the policy. */
  predicate NamesRecorded(b: Book, name: string, priority: int) {
    && (priority in b.byPriority ==> b.byPriority[priority] == name)
    && (name in b.byName ==> b.byName[name] == priority)
  }

  predicate DeleteAllowed(m: Maps, e: Event) {
    match e
    case DeleteAnp(p) => NamesRecorded(m.admin, p.name, p.priority)
    case DeleteCnp(p) => p.tier.UnknownTier? || NamesRecorded(BookOf(m, p.tier), p.name, p.priority)
    case _ => true
  }

  /** Deletion does not look at the owner of the priority: it keeps the maps inverse exactly when it names what is
      recorded. */
  lemma DeleteKeepsInverse(b: Book, name: string, priority: int)
    requires Inverse(b)
    ensures Inverse(Delete(b, name, priority)) <==> NamesRecorded(b, name, priority)
  {
    var d := Delete(b, name, priority);
    if priority in b.byPriority && b.byPriority[priority] != name {
      assert b.byPriority[priority] in d.byName;
    }
    if name in b.byName && b.byName[name] != priority {
      assert b.byName[name] in d.byPriority;
    }
  }

  lemma RecordKeepsInverse(b: Book, name: string, priority: int)
    requires Inverse(b) && name !in b.byName && priority !in b.byPriority
    ensures Inverse(Record(b, name, priority))
  {
  }

  lemma AnpAddedKeepsInverse(b: Book, p: Anp)
    requires Inverse(b) && Available(b, p.name, p.priority)
    ensures Inverse(AnpAdded(b, p))
  {
  }

  lemma WipeKeepsInverse(b: Book, name: string)
    requires Inverse(b)
    ensures Inverse(Wipe(b, name)) && name !in Wipe(b, name).byName
  {
    if name in b.byName {
      DeleteKeepsInverse(b, name, b.byName[name]);
    }
  }

  lemma StepKeepsInverse(m: Maps, e: Event)
    requires Consistent(m)
    ensures Consistent(Step(m, e)) <==> DeleteAllowed(m, e)
  {
    match e
    case AddAnp(p) => if AnpValid(m, p) { AnpAddedKeepsInverse(m.admin, p); }
    case DeleteAnp(p) => DeleteKeepsInverse(m.admin, p.name, p.priority);
    case AddCnp(p) =>
      if CnpValid(m, p) {
        WipeKeepsInverse(m.admin, p.name);
        WipeKeepsInverse(m.baseline, p.name);
        RecordKeepsInverse(Wipe(BookOf(m, p.tier), p.name), p.name, p.priority);
      }
    case DeleteCnp(p) =>
      if !p.tier.UnknownTier? { DeleteKeepsInverse(BookOf(m, p.tier), p.name, p.priority); }
  }

  /** The recorded priority of a policy in a tier, if any. */
  function PriorityOf(m: Maps, tier: Tier, name: string): Option<int>
    requires !tier.UnknownTier?
  {
    var b := BookOf(m, tier);
    if name in b.byName then Some(b.byName[name]) else None
  }

  predicate DeletesAllowed(events: seq<Event>) {
    events == [] ||
    (DeletesAllowed(events[..|events| - 1]) && DeleteAllowed(Run(events[..|events| - 1]), events[|events| - 1]))
  }

  predicate AlwaysConsistent(events: seq<Event>) {
    Consistent(Run(events)) && (events == [] || AlwaysConsistent(events[..|events| - 1]))
  }

  /** From empty maps, the name and priority maps of both tiers stay mutually inverse throughout a run exactly when
      every delete in it names the priority recorded for its policy. */
  lemma {:induction false} MapsStayInverse(events: seq<Event>)
    ensures AlwaysConsistent(events) <==> DeletesAllowed(events)
  {
    if events != [] {
      var init := events[..|events| - 1];
      MapsStayInverse(init);
      if DeletesAllowed(init) {
        StepKeepsInverse(Run(init), events[|events| - 1]);
      }
    }
  }

  /** Deleting a policy that was refused frees the priority of the policy that holds it, and two policies come to
      share it. */
  lemma RefusedThenDeleted(a: string, b: string, c: string)
    requires a != b && b != c && c != a
    ensures var events := [AddCnp(Cnp(a, Admin, 5, 1, 1, true)), AddCnp(Cnp(b, Admin, 5, 1, 1, true)),
                           DeleteCnp(Cnp(b, Admin, 5, 1, 1, true)), AddCnp(Cnp(c, Admin, 5, 1, 1, true))];
      var m := Run(events);
      a in m.admin.byName && c in m.admin.byName && m.admin.byName[a] == m.admin.byName[c] == 5
  {
    var e1, e2 := AddCnp(Cnp(a, Admin, 5, 1, 1, true)), AddCnp(Cnp(b, Admin, 5, 1, 1, true));
    var e3, e4 := DeleteCnp(Cnp(b, Admin, 5, 1, 1, true)), AddCnp(Cnp(c, Admin, 5, 1, 1, true));
    assert [e1, e2, e3, e4][..3] == [e1, e2, e3] && [e1, e2, e3][..2] == [e1, e2];
    assert [e1, e2][..1] == [e1] && [e1][..0] == [];
    assert Run([e1]) == Step(Empty, e1);
    assert Run([e1, e2]) == Run([e1]);
    assert Run([e1, e2, e3]) == Step(Run([e1]), e3);
  }

  // ----- one tier each, within bounds

  predicate ClusterOnly(events: seq<Event>) {
    forall i :: 0 <= i < |events| ==> events[i].AddCnp? || events[i].DeleteCnp?
  }

  predicate OneTier(m: Maps) {
    forall n :: n in m.admin.byName ==> n !in m.baseline.byName
  }

  predicate InBounds(b: Book) {
    forall n :: n in b.byName ==> 0 <= b.byName[n] <= AclCompilation.MaxPriority(AclCompilation.Cnp)
  }

  lemma ClusterStepKeeps(m: Maps, e: Event)
    requires e.AddCnp? || e.DeleteCnp?
    requires OneTier(m) && InBounds(m.admin) && InBounds(m.baseline)
    ensures OneTier(Step(m, e)) && InBounds(Step(m, e).admin) && InBounds(Step(m, e).baseline)
  {
  }

  /** With cluster policies only, whatever is deleted, a policy is recorded in at most one tier, at an accepted
      priority. */
  lemma {:induction false} ClusterPoliciesHaveOneTier(events: seq<Event>)
    requires ClusterOnly(events)
    ensures OneTier(Run(events)) && InBounds(Run(events).admin) && InBounds(Run(events).baseline)
  {
    if events != [] {
      ClusterPoliciesHaveOneTier(events[..|events| - 1]);
      ClusterStepKeeps(Run(events[..|events| - 1]), events[|events| - 1]);
    }
  }

  /** An accepted admin policy leaves each name in one tier exactly when no baseline policy has its name. */
  lemma AnpKeepsOneTier(m: Maps, p: Anp)
    requires OneTier(m) && AnpValid(m, p)
    ensures OneTier(Step(m, AddAnp(p))) <==> p.name !in m.baseline.byName
  {
    assert p.name in Step(m, AddAnp(p)).admin.byName;
  }

  /** An add of the policy, in one direction, that validation accepted at some point of the run; priorities of admin
      policies are not negative by their schema. */
  predicate AddedAt(events: seq<Event>, k: nat, tier: Tier, ingress: bool, p: AclCompilation.Policy)
    requires k < |events|
  {
    match events[k]
    case AddCnp(x) =>
      && CnpValid(Run(events[..k]), x) && p.kind.Cnp? && x.tier == tier && x.name == p.name && x.priority == p.priority
      && |p.rules| == if ingress then x.ingress else x.egress
    case AddAnp(x) =>
      && AnpValid(Run(events[..k]), x) && p.kind.Anp? && tier.Admin? && x.name == p.name
      && 0 <= x.priority == p.priority
      && |p.rules| == if ingress then x.ingress else x.egress
    case _ => false
  }

  ghost predicate WasAdded(events: seq<Event>, tier: Tier, ingress: bool, p: AclCompilation.Policy) {
    exists k: nat :: k < |events| && AddedAt(events, k, tier, ingress, p)
  }

  /** What validation accepts is within the limits of the ACL compilation. */
  lemma AddedIsAccepted(events: seq<Event>, k: nat, tier: Tier, ingress: bool, p: AclCompilation.Policy)
    requires k < |events| && AddedAt(events, k, tier, ingress, p)
    ensures AclCompilation.Accepted(p) && 0 <= p.priority
    ensures if p.kind.Cnp? then p.priority <= 399 && |p.rules| <= 25 else p.priority <= 99 && |p.rules| <= 100
  {
  }

  /** A cluster policy is recorded at its priority exactly if its tier is known, its priority is 0 to 399 and held by
      no other policy of the tier, it has at most 25 rules in each direction, and its peers are fine; unless it was
      recorded there before. */
  lemma CnpRecordedIff(m: Maps, p: Cnp)
    requires p.tier != UnknownTier && Consistent(m) && PriorityOf(m, p.tier, p.name) != Some(p.priority)
    ensures PriorityOf(Step(m, AddCnp(p)), p.tier, p.name) == Some(p.priority) <==>
      && 0 <= p.priority <= 399 && p.ingress <= 25 && p.egress <= 25 && p.peersOk
      && forall n :: n in BookOf(m, p.tier).byName && n != p.name ==> BookOf(m, p.tier).byName[n] != p.priority
  {
    AvailableIff(BookOf(m, p.tier), p.name, p.priority);
  }

  /** The same for an admin policy, with priorities up to 99 and 100 rules. */
  lemma AnpRecordedIff(m: Maps, p: Anp)
    requires Consistent(m) && PriorityOf(m, Admin, p.name) != Some(p.priority)
    ensures PriorityOf(Step(m, AddAnp(p)), Admin, p.name) == Some(p.priority) <==>
      && p.priority <= 99 && p.ingress <= 100 && p.egress <= 100
      && forall n :: n in m.admin.byName && n != p.name ==> m.admin.byName[n] != p.priority
  {
    AvailableIff(m.admin, p.name, p.priority);
  }

  lemma AvailableIff(b: Book, name: string, priority: int)
    requires Inverse(b)
    ensures Available(b, name, priority) <==> forall n :: n in b.byName && n != name ==> b.byName[n] != priority
  {
  }

  /** In every run, of policies of both kinds, whose deletes name what is recorded: policies that validation accepted
      and that are recorded at their priority form a tier, as the ACL compilation needs it; put in order of priority,
      no two share one. */
  lemma RecordedPoliciesFormATier(events: seq<Event>, tier: Tier, ingress: bool, policies: seq<AclCompilation.Policy>)
    requires DeletesAllowed(events) && !tier.UnknownTier? && AclCompilation.DistinctNames(policies)
    requires forall n :: 0 <= n < |policies| ==>
               && WasAdded(events, tier, ingress, policies[n])
               && PriorityOf(Run(events), tier, policies[n].name) == Some(policies[n].priority)
    requires forall m, n :: 0 <= m < n < |policies| ==> policies[m].priority <= policies[n].priority
    ensures AclCompilation.Tier(policies)
  {
    MapsStayInverse(events);
    forall n | 0 <= n < |policies|
      ensures AclCompilation.Accepted(policies[n]) && 0 <= policies[n].priority
    {
      assert WasAdded(events, tier, ingress, policies[n]);
      var k: nat :| k < |events| && AddedAt(events, k, tier, ingress, policies[n]);
      AddedIsAccepted(events, k, tier, ingress, policies[n]);
    }
    forall m, n | 0 <= m < n < |policies|
      ensures policies[m].priority < policies[n].priority
    {
      assert policies[m].name != policies[n].name;
      DistinctPriorities(BookOf(Run(events), tier), policies[m].name, policies[n].name);
    }
  }

  lemma DistinctPriorities(b: Book, a: string, c: string)
    requires Inverse(b) && a in b.byName && c in b.byName && a != c
    ensures b.byName[a] != b.byName[c]
  {
  }
}
