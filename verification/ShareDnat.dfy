/** Share-type DNAT: several rules with one identity are the backends of one map in the gateway, which is rebuilt in
    full whenever one of them is added or cleaned up. */
module ShareDnat {

  /** A DNAT rule as the lister returns it; the labels are set later than the spec. */
  datatype Rule = Rule(
    name: string, gatewayLabel: string, portLabel: string, eip: string, protocol: string, externalPort: string,
    share: bool, deleting: bool, internalIP: string, internalPort: string)

  datatype Identity = Identity(gateway: string, eip: string, v4ip: string, externalPort: string, protocol: string)

  type Backends = seq<string>

  /** The gateway of an identity, and whether a command run in its pod succeeds. */
  datatype Gateway = Gateway(deleted: bool, podFound: bool, execOk: bool)

  // ----- the order of strings

  predicate Less(a: string, b: string) {
    b != [] && (a == [] || a[0] < b[0] || (a[0] == b[0] && Less(a[1..], b[1..])))
  }

  lemma {:induction false} LessTransitive(a: string, b: string, c: string)
    requires Less(a, b) && Less(b, c)
    ensures Less(a, c)
  {
    if a != [] && a[0] == b[0] == c[0] {
      LessTransitive(a[1..], b[1..], c[1..]);
    }
  }

  lemma {:induction false} LessTotal(a: string, b: string)
    ensures Less(a, b) || a == b || Less(b, a)
    ensures !(Less(a, b) && Less(b, a)) && !Less(a, a)
  {
    if a != [] && b != [] {
      LessTotal(a[1..], b[1..]);
      assert a == [a[0]] + a[1..] && b == [b[0]] + b[1..];
    }
    if a != [] {
      LessTotal(a[1..], a[1..]);
    }
  }

  predicate Ascending(s: seq<string>) {
    forall i, j :: 0 <= i < j < |s| ==> Less(s[i], s[j])
  }

  function Elements(s: seq<string>): set<string> {
    set x | x in s
  }

  lemma NoElements(s: seq<string>)
    ensures s == [] <==> Elements(s) == {}
  {
    assert s != [] ==> s[0] in Elements(s);
  }

  /** A strictly ascending sequence is determined by its elements. */
  lemma {:induction false} AscendingIsUnique(a: seq<string>, b: seq<string>)
    requires Ascending(a) && Ascending(b) && Elements(a) == Elements(b)
    ensures a == b
  {
    NoElements(a);
    NoElements(b);
    if a != [] {
      assert a[0] in Elements(a) && a[0] in b;
      assert b[0] in Elements(b) && b[0] in a;
      LessTotal(a[0], b[0]);
      TailElements(a);
      TailElements(b);
      AscendingIsUnique(a[1..], b[1..]);
      assert a == [a[0]] + a[1..] && b == [b[0]] + b[1..];
    }
  }

  lemma TailElements(s: seq<string>)
    requires s != [] && Ascending(s)
    ensures Elements(s[1..]) == Elements(s) - {s[0]} && Ascending(s[1..])
  {
    LessTotal(s[0], s[0]);
    forall x
      ensures x in s[1..] <==> x in s && x != s[0]
    {
      if x in s[1..] {
        var i :| 0 <= i < |s| - 1 && s[1..][i] == x;
        assert Less(s[0], s[i + 1]);
      }
    }
  }

  function Insert(s: seq<string>, x: string): seq<string> {
    if s == [] then [x] else if Less(x, s[0]) then [x] + s else [s[0]] + Insert(s[1..], x)
  }

  function Sort(s: seq<string>): seq<string> {
    if s == [] then [] else Insert(Sort(s[..|s| - 1]), s[|s| - 1])
  }

  lemma PrependKeepsOrder(x: string, s: seq<string>)
    requires Ascending(s) && forall y :: y in s ==> Less(x, y)
    ensures Ascending([x] + s) && Elements([x] + s) == Elements(s) + {x}
  {
    forall j | 0 <= j < |s|
      ensures Less(x, s[j])
    {
      assert s[j] in s;
    }
  }

  lemma FirstIsLeast(x: string, s: seq<string>)
    requires s != [] && Ascending(s) && (Less(x, s[0]) || x == s[0])
    ensures forall y :: y in s[1..] ==> Less(x, y)
    ensures Less(x, s[0]) ==> forall y :: y in s ==> Less(x, y)
  {
    forall j | 1 <= j < |s|
      ensures Less(x, s[j])
    {
      if x != s[0] { LessTransitive(x, s[0], s[j]); }
    }
  }

  lemma {:induction false} InsertKeepsOrder(s: seq<string>, x: string)
    requires Ascending(s) && x !in s
    ensures Ascending(Insert(s, x)) && Elements(Insert(s, x)) == Elements(s) + {x}
  {
    if s != [] {
      LessTotal(x, s[0]);
      if Less(x, s[0]) {
        FirstIsLeast(x, s);
        PrependKeepsOrder(x, s);
      } else {
        InsertKeepsOrder(s[1..], x);
        FirstIsLeast(s[0], s);
        var t := Insert(s[1..], x);
        assert forall y :: y in t <==> y in Elements(t);
        PrependKeepsOrder(s[0], t);
        TailElements(s);
      }
    }
  }

  predicate NoDuplicates(s: seq<string>) {
    forall i, j :: 0 <= i < j < |s| ==> s[i] != s[j]
  }

  lemma {:induction false} SortSorts(s: seq<string>)
    requires NoDuplicates(s)
    ensures Ascending(Sort(s)) && Elements(Sort(s)) == Elements(s)
  {
    if s != [] {
      var init := s[..|s| - 1];
      SortSorts(init);
      assert s[|s| - 1] !in Elements(init);
      InsertKeepsOrder(Sort(init), s[|s| - 1]);
      assert s == init + [s[|s| - 1]];
    }
  }

  /** The distinct non-empty backends in sorted order. */
  method DedupSortedBackends(backends: seq<string>) returns (r: seq<string>)
    ensures Ascending(r) && Elements(r) == Elements(backends) - {""}
  {
    if |backends| == 0 {
      return [];
    }
    var seen: set<string> := {};
    var uniq: seq<string> := [];
    for i := 0 to |backends|
      invariant seen == Elements(uniq) == Elements(backends[..i]) - {""} && NoDuplicates(uniq)
    {
      var b := backends[i];
      assert backends[..i + 1] == backends[..i] + [b];
      if b == "" || b in seen {
        continue;
      }
      seen := seen + {b};
      uniq := uniq + [b];
    }
    assert backends[..|backends|] == backends;
    if |uniq| == 0 {
      return [];
    }
    SortSorts(uniq);
    return Sort(uniq);
  }

  // ----- the backends of an identity

  predicate SameIdentity(r: Rule, id: Identity) {
    r.eip == id.eip && r.protocol == id.protocol && r.externalPort == id.externalPort
  }

  /** The lister's selector finds the rule. */
  predicate Labelled(r: Rule, id: Identity) {
    r.gatewayLabel == id.gateway && r.portLabel == id.externalPort
  }

  /** A share rule of the identity that is not being deleted and has a backend. */
  predicate Live(r: Rule, id: Identity) {
    SameIdentity(r, id) && r.share && !r.deleting && r.internalIP != "" && r.internalPort != ""
  }

  function BackendOf(r: Rule): string {
    r.internalIP + ":" + r.internalPort
  }

  /** What the lister returns for the set of cached rules, in any order. */
  predicate Lists(listing: seq<Rule>, rules: set<Rule>, id: Identity) {
    && (forall r :: r in listing ==> r in rules && Labelled(r, id))
    && (forall r :: r in rules && Labelled(r, id) ==> r in listing)
  }

  function ShareBackendsOf(listing: seq<Rule>, id: Identity, except: string): set<string> {
    set r | r in listing && r.name != except && Live(r, id) :: BackendOf(r)
  }

  lemma ShareBackendsJoin(listing: seq<Rule>, d: Rule, id: Identity, except: string)
    ensures ShareBackendsOf(listing + [d], id, except)
      == ShareBackendsOf(listing, id, except) + if d.name != except && Live(d, id) then {BackendOf(d)} else {}
  {
  }

  method GetShareBackends(listing: seq<Rule>, id: Identity, except: string) returns (backends: seq<string>)
    ensures Elements(backends) == ShareBackendsOf(listing, id, except) && "" !in backends
  {
    backends := [];
    for i := 0 to |listing|
      invariant Elements(backends) == ShareBackendsOf(listing[..i], id, except) && "" !in backends
    {
      var d := listing[i];
      assert listing[..i + 1] == listing[..i] + [d];
      ShareBackendsJoin(listing[..i], d, id, except);
      if d.name == except {
        continue;
      }
      if d.eip != id.eip || d.protocol != id.protocol || d.externalPort != id.externalPort {
        continue;
      }
      if !d.share {
        continue;
      }
      if d.deleting {
        continue;
      }
      if d.internalIP == "" || d.internalPort == "" {
        continue;
      }
      backends := backends + [BackendOf(d)];
    }
    assert listing[..|listing|] == listing;
  }

  // ----- the gateway's maps

  /** The sorted sequence of a set of backends. */
  ghost function Canonical(backends: set<string>): (r: Backends)
    ensures Ascending(r) && Elements(r) == backends
  {
    if backends == {} then []
    else
      var x :| x in backends;
      var rest := Canonical(backends - {x});
      assert x !in Elements(rest);
      InsertKeepsOrder(rest, x);
      Insert(rest, x)
  }

  /** The maps with that of the identity holding the backends, sorted and distinct, or absent if there are none. */
  ghost function Settled(maps: map<Identity, Backends>, id: Identity, backends: set<string>): map<Identity, Backends> {
    if backends == {} then maps - {id} else maps[id := Canonical(backends)]
  }

  predicate Reachable(gw: Gateway) {
    gw.podFound && gw.execOk
  }

  /** What the addition or cleanup of a rule works with. */
  datatype Request = Request(rule: Rule, listing: seq<Rule>, gw: Gateway)

  ghost function AfterCleanup(maps: map<Identity, Backends>, id: Identity, e: Request): map<Identity, Backends> {
    var backends := ShareBackendsOf(e.listing, id, e.rule.name);
    if Reachable(e.gw) && (if backends == {} then !e.gw.deleted else id.v4ip != "")
    then Settled(maps, id, backends) else maps
  }

  ghost function AfterAdd(maps: map<Identity, Backends>, id: Identity, e: Request): map<Identity, Backends> {
    if Reachable(e.gw) && id.v4ip != ""
    then Settled(maps, id, ShareBackendsOf(e.listing, id, e.rule.name) + {BackendOf(e.rule)}) else maps
  }

  class Controller {
    var maps: map<Identity, Backends>

    constructor ()
      ensures maps == map[]
    {
      maps := map[];
    }

    method CreateNftDnatMapInPod(id: Identity, backends: seq<string>, gw: Gateway) returns (ok: bool)
      modifies this
      ensures ok == (id.v4ip != "" && Elements(backends) - {""} != {} && gw.podFound && gw.execOk)
      ensures maps == if ok then Settled(old(maps), id, Elements(backends) - {""}) else old(maps)
    {
      if id.v4ip == "" {
        return false;
      }
      var sorted := DedupSortedBackends(backends);
      NoElements(sorted);
      if |sorted| == 0 {
        return false;
      }
      if !gw.podFound || !gw.execOk {
        return false;
      }
      AscendingIsUnique(sorted, Canonical(Elements(backends) - {""}));
      maps := maps[id := sorted];
      return true;
    }

    method DeleteNftDnatMapInPod(id: Identity, gw: Gateway) returns (ok: bool)
      modifies this
      ensures ok == (gw.deleted || (gw.podFound && gw.execOk))
      ensures maps == if ok && !gw.deleted then old(maps) - {id} else old(maps)
    {
      if gw.deleted {
        return true;
      }
      if !gw.podFound || !gw.execOk {
        return false;
      }
      maps := maps - {id};
      return true;
    }

    /** Rebuilds the map of the identity without the rule, or removes it when no backend is left. */
    method CleanupShareDnatInPod(id: Identity, e: Request) returns (ok: bool)
      modifies this
      ensures maps == AfterCleanup(old(maps), id, e)
      ensures ok == if ShareBackendsOf(e.listing, id, e.rule.name) == {} then e.gw.deleted || Reachable(e.gw)
                    else id.v4ip != "" && Reachable(e.gw)
    {
      var remaining := GetShareBackends(e.listing, id, e.rule.name);
      NoElements(remaining);
      if |remaining| == 0 {
        ok := DeleteNftDnatMapInPod(id, e.gw);
        return;
      }
      assert Elements(remaining) - {""} == Elements(remaining);
      ok := CreateNftDnatMapInPod(id, remaining, e.gw);
    }

    /** The share case of adding a rule: its siblings' backends and its own. */
    method AddShareDnat(id: Identity, e: Request) returns (ok: bool)
      modifies this
      ensures maps == AfterAdd(old(maps), id, e) && ok == (Reachable(e.gw) && id.v4ip != "")
    {
      var backends := GetShareBackends(e.listing, id, e.rule.name);
      var all := backends + [BackendOf(e.rule)];
      assert Elements(all) == Elements(backends) + {BackendOf(e.rule)};
      assert Elements(all) - {""} == Elements(all);
      ok := CreateNftDnatMapInPod(id, all, e.gw);
    }
  }

  // ----- runs: the cache changes, gateways restart, rules are added and cleaned up

  /** The cached rules by name, and the maps in the gateways. */
  datatype System = System(rules: map<string, Rule>, maps: map<Identity, Backends>)

  datatype Event =
    | Cache(rule: Rule)         // a rule is created, or a new version arrives: labelled, being deleted, changed
    | Uncache(name: string)
    | Restart(gateway: string)  // the gateway loses its maps
    | Add(id: Identity, request: Request)      // of a new rule, after a change of its spec, or again after a restart
    | Cleanup(id: Identity, request: Request)  // of a rule being deleted, or before a change of its spec is applied

  const Initial: System := System(map[], map[])

  /** An addition or cleanup over what the lister returns in some order. The rule is the handler's own copy: it need not
      be cached, live, or as it is in the cache, and an addition after a restart takes its backend from the status. */
  predicate Handles(s: System, e: Event) {
    (e.Add? || e.Cleanup?) && Lists(e.request.listing, s.rules.Values, e.id)
  }

  /** One step; an addition or cleanup over another listing changes nothing. */
  ghost function Step(s: System, e: Event): System {
    match e
    case Cache(r) => s.(rules := s.rules[r.name := r])
    case Uncache(name) => s.(rules := s.rules - {name})
    case Restart(gateway) => s.(maps := map id | id in s.maps && id.gateway != gateway :: s.maps[id])
    case Add(id, r) => if Handles(s, e) then s.(maps := AfterAdd(s.maps, id, r)) else s
    case Cleanup(id, r) => if Handles(s, e) then s.(maps := AfterCleanup(s.maps, id, r)) else s
  }

  ghost function Run(events: seq<Event>): System {
    if events == [] then Initial else Step(Run(events[..|events| - 1]), events[|events| - 1])
  }

  predicate NamesAgree(s: System) {
    forall n :: n in s.rules ==> s.rules[n].name == n
  }

  lemma {:induction false} RunNamesAgree(events: seq<Event>)
    ensures NamesAgree(Run(events))
  {
    if events != [] {
      RunNamesAgree(events[..|events| - 1]);
    }
  }

  /** The backends of the live rules that carry the labels, but the named one. */
  function LabelledBackends(rules: map<string, Rule>, id: Identity, except: string): set<string> {
    set n | n in rules && n != except && Live(rules[n], id) && Labelled(rules[n], id) :: BackendOf(rules[n])
  }

  function LiveBackends(rules: map<string, Rule>, id: Identity): set<string> {
    set n | n in rules && Live(rules[n], id) :: BackendOf(rules[n])
  }

  /** What an addition or cleanup makes of the map: the labelled live backends of the others, and its own if it is
      added. */
  function Written(s: System, e: Event): set<string>
    requires Handles(s, e)
  {
    LabelledBackends(s.rules, e.id, e.request.rule.name) + if e.Add? then {BackendOf(e.request.rule)} else {}
  }

  /** The event gets through to the gateway. */
  predicate Writes(s: System, e: Event, id: Identity) {
    && Handles(s, e) && e.id == id && e.request.gw.podFound && e.request.gw.execOk
    && (if Written(s, e) == {} then !e.request.gw.deleted else id.v4ip != "")
  }

  predicate Restarts(e: Event, id: Identity) {
    e.Restart? && e.gateway == id.gateway
  }

  /** Whatever the order of the listing, it holds the labelled live backends. */
  lemma ListingIsLabelled(s: System, e: Event)
    requires NamesAgree(s) && Handles(s, e)
    ensures ShareBackendsOf(e.request.listing, e.id, e.request.rule.name)
      == LabelledBackends(s.rules, e.id, e.request.rule.name)
  {
    var listing, id, name := e.request.listing, e.id, e.request.rule.name;
    forall b
      ensures b in ShareBackendsOf(listing, id, name) <==> b in LabelledBackends(s.rules, id, name)
    {
      if b in ShareBackendsOf(listing, id, name) {
        var r :| r in listing && r.name != name && Live(r, id) && BackendOf(r) == b;
        var n :| n in s.rules && s.rules[n] == r;
      }
      if b in LabelledBackends(s.rules, id, name) {
        var n :| n in s.rules && n != name && Live(s.rules[n], id) && Labelled(s.rules[n], id)
                 && BackendOf(s.rules[n]) == b;
        assert s.rules[n] in s.rules.Values && s.rules[n] in listing;
      }
    }
  }

  /** The identity's map holds the backends, sorted and distinct; it is absent exactly if there are none. */
  ghost predicate Holds(maps: map<Identity, Backends>, id: Identity, backends: set<string>) {
    (id in maps <==> backends != {}) && (id in maps ==> maps[id] == Canonical(backends))
  }

  lemma StepWrites(s: System, e: Event, id: Identity)
    requires NamesAgree(s)
    ensures Writes(s, e, id) ==> Holds(Step(s, e).maps, id, Written(s, e))
    ensures Restarts(e, id) ==> Holds(Step(s, e).maps, id, {})
    ensures !Writes(s, e, id) && !Restarts(e, id) ==> forall b :: Holds(s.maps, id, b) ==> Holds(Step(s, e).maps, id, b)
  {
    if Handles(s, e) {
      ListingIsLabelled(s, e);
      if e.Cleanup? {
        assert Written(s, e) == ShareBackendsOf(e.request.listing, e.id, e.request.rule.name);
      }
    }
  }

  ghost predicate WritesAt(events: seq<Event>, n: nat, id: Identity) {
    n < |events| && Writes(Run(events[..n]), events[n], id)
  }

  /** From event n on, none writes the identity's map or empties its gateway. */
  ghost predicate UntouchedFrom(events: seq<Event>, n: nat, id: Identity) {
    forall k: nat :: n <= k < |events| ==> !WritesAt(events, k, id) && !Restarts(events[k], id)
  }

  /** Event n is the last of the run that got through for the identity, and its gateway has not restarted since. */
  ghost predicate LastWrite(events: seq<Event>, n: nat, id: Identity) {
    WritesAt(events, n, id) && UntouchedFrom(events, n + 1, id)
  }

  lemma {:induction false} UntouchedHolds(events: seq<Event>, n: nat, id: Identity, b: set<string>)
    requires n <= |events| && UntouchedFrom(events, n, id) && Holds(Run(events[..n]).maps, id, b)
    ensures Holds(Run(events).maps, id, b)
  {
    if n == |events| {
      assert events[..n] == events;
    } else {
      var last := |events| - 1;
      var init := events[..last];
      forall k: nat | n <= k < last
        ensures !WritesAt(init, k, id) && !Restarts(init[k], id)
      {
        assert init[..k] == events[..k] && !WritesAt(events, k, id);
      }
      assert init[..n] == events[..n];
      UntouchedHolds(init, n, id, b);
      assert !WritesAt(events, last, id);
      RunNamesAgree(init);
      StepWrites(Run(init), events[last], id);
    }
  }

  /** In every run, however the cache changed and whatever orders the lister used, the identity's map is what the last
      event that got through made of it: the labelled live backends of the other rules at that event, and its own. */
  lemma MapIsLastWritten(events: seq<Event>, n: nat, id: Identity)
    requires LastWrite(events, n, id)
    ensures Holds(Run(events).maps, id, Written(Run(events[..n]), events[n]))
  {
    RunNamesAgree(events[..n]);
    StepWrites(Run(events[..n]), events[n], id);
    assert events[..n + 1][..n] == events[..n];
    UntouchedHolds(events, n + 1, id, Written(Run(events[..n]), events[n]));
  }

  /** The rule is another one, of the identity by its labels and its spec, of the share type, not being deleted, and
      with a complete backend. */
  predicate Contributes(r: Rule, id: Identity, except: string) {
    && r.name != except && r.gatewayLabel == id.gateway && r.portLabel == id.externalPort
    && r.eip == id.eip && r.protocol == id.protocol && r.externalPort == id.externalPort
    && r.share && !r.deleting && r.internalIP != "" && r.internalPort != ""
  }

  /** In terms of the rules' fields: a backend is in the map that the last event made exactly if it is the one added,
      or the address and port of a cached rule that contributes; none comes from a rule that is being deleted or
      exclusive. */
  lemma MapByFields(events: seq<Event>, n: nat, id: Identity, b: string)
    requires LastWrite(events, n, id)
    ensures var s, r := Run(events[..n]), events[n].request.rule;
      (id in Run(events).maps && b in Run(events).maps[id]) <==>
        || (events[n].Add? && b == r.internalIP + ":" + r.internalPort)
        || exists m :: m in s.rules && Contributes(s.rules[m], id, r.name)
                       && b == s.rules[m].internalIP + ":" + s.rules[m].internalPort
  {
    var s, r := Run(events[..n]), events[n].request.rule;
    MapIsLastWritten(events, n, id);
    RunNamesAgree(events[..n]);
    var written := Written(s, events[n]);
    assert id in Run(events).maps ==> (b in Run(events).maps[id] <==> b in Elements(Run(events).maps[id]));
    assert (id in Run(events).maps && b in Run(events).maps[id]) <==> b in written;
    if m :| m in s.rules && Contributes(s.rules[m], id, r.name) && b == BackendOf(s.rules[m]) {
      assert b in LabelledBackends(s.rules, id, r.name);
    }
  }

  /** Until an event gets through, from the start of the run or since a restart of its gateway, there is no map. */
  lemma AbsentUntilWritten(events: seq<Event>, n: nat, id: Identity)
    requires n <= |events| && UntouchedFrom(events, n, id) && (n > 0 ==> Restarts(events[n - 1], id))
    ensures id !in Run(events).maps
  {
    if n > 0 {
      RunNamesAgree(events[..n - 1]);
      StepWrites(Run(events[..n - 1]), events[n - 1], id);
      assert events[..n][..n - 1] == events[..n - 1];
    }
    UntouchedHolds(events, n, id, {});
  }

  /** Every live rule whose backend the listing does not give, because it is not labelled or is the rule of the event,
      has its backend written all the same; and what is added is the backend of a live rule. */
  predicate Complete(s: System, e: Event)
    requires Handles(s, e)
  {
    && (forall n :: n in s.rules && Live(s.rules[n], e.id)
                    && (!Labelled(s.rules[n], e.id) || n == e.request.rule.name) ==>
          BackendOf(s.rules[n]) in Written(s, e))
    && (e.Add? ==> BackendOf(e.request.rule) in LiveBackends(s.rules, e.id))
  }

  lemma CanonicalIsOne(a: set<string>, b: set<string>)
    requires Canonical(a) == Canonical(b)
    ensures a == b
  {
    assert Elements(Canonical(a)) == a && Elements(Canonical(b)) == b;
  }

  lemma WrittenIsLive(s: System, e: Event)
    requires Handles(s, e)
    ensures Written(s, e) == LiveBackends(s.rules, e.id) <==> Complete(s, e)
  {
    var live := LiveBackends(s.rules, e.id);
    if Complete(s, e) {
      forall b
        ensures b in Written(s, e) <==> b in live
      {
        if b in live {
          var n :| n in s.rules && Live(s.rules[n], e.id) && BackendOf(s.rules[n]) == b;
        }
      }
    }
  }

  /** The map holds exactly the live backends of the last event that got through, if and only if every rule that was
      live then was labelled and not the rule of the event, or shares its backend with such a rule or with the one
      added; and the one added is live as the cache shows it. */
  lemma MapIsLiveIff(events: seq<Event>, n: nat, id: Identity)
    requires LastWrite(events, n, id)
    ensures var s := Run(events[..n]);
      Holds(Run(events).maps, id, LiveBackends(s.rules, id)) <==> Complete(s, events[n])
  {
    var s := Run(events[..n]);
    MapIsLastWritten(events, n, id);
    WrittenIsLive(s, events[n]);
    var live := LiveBackends(s.rules, id);
    if Holds(Run(events).maps, id, live) && live != {} {
      CanonicalIsOne(Written(s, events[n]), live);
    }
  }

  /** The usual case: an added rule is live as the handler sees it, a cleaned-up one is not live, and then the other
      live rules being labelled is enough. */
  lemma LabelledIsComplete(s: System, e: Event)
    requires NamesAgree(s) && Handles(s, e)
    requires forall n :: n in s.rules && n != e.request.rule.name && Live(s.rules[n], e.id) ==>
               Labelled(s.rules[n], e.id)
    requires var r := e.request.rule;
      if e.Add? then r.name in s.rules && s.rules[r.name] == r && Live(r, e.id)
      else r.name in s.rules ==> !Live(s.rules[r.name], e.id)
    ensures Complete(s, e)
  {
  }

  /** Rebuilding is order-independent: two runs whose last events that got through were complete and saw the same live
      backends leave the same map, whatever was added or cleaned up before and in which order. */
  lemma RebuildIsOrderIndependent(a: seq<Event>, b: seq<Event>, m: nat, n: nat, id: Identity)
    requires LastWrite(a, m, id) && LastWrite(b, n, id)
    requires Complete(Run(a[..m]), a[m]) && Complete(Run(b[..n]), b[n])
    requires LiveBackends(Run(a[..m]).rules, id) == LiveBackends(Run(b[..n]).rules, id)
    ensures id in Run(a).maps <==> id in Run(b).maps
    ensures id in Run(a).maps && id in Run(b).maps ==> Run(a).maps[id] == Run(b).maps[id]
  {
    MapIsLiveIff(a, m, id);
    MapIsLiveIff(b, n, id);
  }

  // ----- maps that are not complete

  const Up: Gateway := Gateway(false, true, true)
  const Unreachable: Gateway := Gateway(false, false, false)

  lemma RunAppend(events: seq<Event>, e: Event)
    ensures Run(events + [e]) == Step(Run(events), e)
  {
    assert (events + [e])[..|events|] == events;
  }

  lemma CacheStep(events: seq<Event>, r: Rule)
    ensures Run(events + [Cache(r)]).maps == Run(events).maps
    ensures Run(events + [Cache(r)]).rules == Run(events).rules[r.name := r]
  {
    RunAppend(events, Cache(r));
  }

  /** An addition while no other rule of the identity is both live and labelled. */
  lemma AddAlone(events: seq<Event>, id: Identity, r: Rule, listing: seq<Rule>)
    requires id.v4ip != "" && Lists(listing, Run(events).rules.Values, id)
    requires ShareBackendsOf(listing, id, r.name) == {}
    ensures var s := Run(events + [Add(id, Request(r, listing, Up))]);
      s.rules == Run(events).rules && s.maps == Run(events).maps[id := Canonical({BackendOf(r)})]
  {
    RunAppend(events, Add(id, Request(r, listing, Up)));
    assert ShareBackendsOf(listing, id, r.name) + {BackendOf(r)} == {BackendOf(r)};
  }

  /** Two rules of one identity, in the versions before and after labelling. */
  predicate Siblings(id: Identity, a: Rule, b: Rule, a': Rule, b': Rule) {
    && id.v4ip != "" && a.name != b.name && a'.name == a.name && b'.name == b.name
    && Live(a, id) && Live(b, id) && Live(a', id) && Live(b', id)
    && !Labelled(a, id) && !Labelled(b, id) && Labelled(a', id) && Labelled(b', id)
    && BackendOf(a') == BackendOf(a) != BackendOf(b) == BackendOf(b')
  }

  lemma TwoAdded(id: Identity, a: Rule, b: Rule) returns (events: seq<Event>)
    requires id.v4ip != "" && a.name != b.name && !Labelled(a, id) && !Labelled(b, id)
    ensures Run(events).rules == map[a.name := a, b.name := b]
    ensures Run(events).maps == map[id := Canonical({BackendOf(b)})]
  {
    events := [] + [Cache(a)] + [Cache(b)];
    CacheStep([], a);
    CacheStep([] + [Cache(a)], b);
    assert Run(events).rules == map[a.name := a, b.name := b];
    assert Lists([], Run(events).rules.Values, id);
    AddAlone(events, id, a, []);
    events := events + [Add(id, Request(a, [], Up))];
    AddAlone(events, id, b, []);
    events := events + [Add(id, Request(b, [], Up))];
  }

  /** Two rules of one identity that are added before either is labelled: the second addition drops the backend of the
      first, and it stays dropped when both are labelled later. */
  lemma TwoFirstAddsLoseOne(id: Identity, a: Rule, b: Rule, a': Rule, b': Rule) returns (events: seq<Event>)
    requires Siblings(id, a, b, a', b')
    ensures var s := Run(events);
      && s.rules == map[a.name := a', b.name := b'] && s.maps == map[id := Canonical({BackendOf(b)})]
      && BackendOf(a) in LiveBackends(s.rules, id)
  {
    events := TwoAdded(id, a, b);
    CacheStep(events, a');
    CacheStep(events + [Cache(a')], b');
    events := events + [Cache(a')] + [Cache(b')];
    var rules := Run(events).rules;
    assert rules == map[a.name := a', b.name := b'];
    assert rules[a.name] == a';
  }

  lemma ListsOnly(rules: map<string, Rule>, id: Identity, r: Rule)
    requires rules == map[r.name := r] && Labelled(r, id)
    ensures Lists([r], rules.Values, id)
  {
    forall x | x in rules.Values
      ensures x == r
    {
      var n :| n in rules && rules[n] == x;
    }
    assert rules[r.name] in rules.Values;
  }

  /** A change of the backend of a labelled rule, the only one of its identity: the cleanup removes the map, and if the
      addition that should follow does not get through there is none, although the rule is live. */
  lemma ChangeHalfDone(id: Identity, a: Rule, b: Rule) returns (events: seq<Event>)
    requires id.v4ip != "" && a.name == b.name && Live(a, id) && Live(b, id) && Labelled(a, id) && Labelled(b, id)
    ensures var s := Run(events);
      s.rules == map[a.name := b] && id !in s.maps && BackendOf(b) in LiveBackends(s.rules, id)
  {
    events := [] + [Cache(a)];
    CacheStep([], a);
    ListsOnly(Run(events).rules, id, a);
    AddAlone(events, id, a, [a]);
    events := events + [Add(id, Request(a, [a], Up))];
    CacheStep(events, b);
    events := events + [Cache(b)];
    assert Run(events).rules == map[a.name := b];
    ListsOnly(Run(events).rules, id, b);
    RunAppend(events, Cleanup(id, Request(b, [b], Up)));
    events := events + [Cleanup(id, Request(b, [b], Up))];
    assert ShareBackendsOf([b], id, b.name) == {};
    RunAppend(events, Add(id, Request(b, [b], Unreachable)));
    events := events + [Add(id, Request(b, [b], Unreachable))];
  }

  // ----- duplicates

  method IsDnatDuplicated(listing: seq<Rule>, id: Identity, name: string, share: bool) returns (duplicated: bool)
    ensures duplicated <==>
      exists d :: d in listing && d.name != name && d.eip == id.eip && d.protocol == id.protocol && !(share && d.share)
  {
    for i := 0 to |listing|
      invariant forall d :: d in listing[..i] && d.name != name && d.eip == id.eip && d.protocol == id.protocol ==>
                  share && d.share
    {
      var d := listing[i];
      assert listing[..i + 1] == listing[..i] + [d];
      if d.name == name || d.eip != id.eip || d.protocol != id.protocol {
        continue;
      }
      if share && d.share {
        continue;
      }
      return true;
    }
    assert listing[..|listing|] == listing;
    return false;
  }
}
