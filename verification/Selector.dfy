/** The E2E selector: which runner jobs a change needs. Pattern matching is a parameter; a matrix entry is a map of
    fields, and two entries are the same job when they agree on every field but `selection`. */
module Selector {
  import opened Common

  datatype Result<+T> = Ok(value: T) | Err(error: string)

  type Entry = map<string, string>

  const Field: string := "selection"

  /** A dimension of a job's matrix. */
  datatype Axis = Axis(key: string, values: seq<string>)

  datatype Job = Job(id: string, explicit: Option<seq<Entry>>, axes: seq<Axis>)

  datatype PathRule = PathRule(patterns: seq<string>, groups: seq<string>)

  /** `names` are the keys of `groups` in sorted order. */
  datatype Catalog = Catalog(
    names: seq<string>, groups: map<string, seq<Job>>, smoke: seq<Entry>, pathRules: seq<PathRule>,
    fullPaths: seq<string>, productionPrefixes: seq<string>, fullThreshold: int, forceFull: bool)

  /** Whether a path matches a pattern. */
  type Matcher = (string, string) -> bool

  // ----- expansion

  /** All the ways of choosing one value per axis, the last axis varying fastest. */
  function Combinations(axes: seq<Axis>): seq<Entry> {
    if axes == [] then [map[]] else Extended(Combinations(axes[..|axes| - 1]), axes[|axes| - 1])
  }

  function Extended(entries: seq<Entry>, axis: Axis): seq<Entry> {
    if entries == [] then []
    else Extended(entries[..|entries| - 1], axis) + WithEach(entries[|entries| - 1], axis.key, axis.values)
  }

  function WithEach(entry: Entry, key: string, values: seq<string>): seq<Entry> {
    if values == [] then []
    else WithEach(entry, key, values[..|values| - 1]) + [entry[key := values[|values| - 1]]]
  }

  function ExpandJob(job: Job): seq<Entry> {
    var product := Combinations(job.axes);
    var entries := if job.explicit.Some? then job.explicit.value else if product == [] then [map[]] else product;
    Named(job.id, entries)
  }

  function Named(id: string, entries: seq<Entry>): seq<Entry> {
    if entries == [] then []
    else Named(id, entries[..|entries| - 1]) + [map["job" := id] + entries[|entries| - 1]]
  }

  function ExpandJobs(jobs: seq<Job>): seq<Entry> {
    if jobs == [] then [] else ExpandJobs(jobs[..|jobs| - 1]) + ExpandJob(jobs[|jobs| - 1])
  }

  function ExpandGroups(c: Catalog, groups: seq<string>): seq<Entry>
    requires forall g :: g in groups ==> g in c.groups
  {
    if groups == [] then []
    else ExpandGroups(c, groups[..|groups| - 1]) + ExpandJobs(c.groups[groups[|groups| - 1]])
  }

  /** An assignment of one of its values to each axis, and nothing else. */
  predicate Chooses(e: Entry, axes: seq<Axis>) {
    && (forall k :: k in e ==> exists i :: 0 <= i < |axes| && axes[i].key == k)
    && (forall i :: 0 <= i < |axes| ==> axes[i].key in e && e[axes[i].key] in axes[i].values)
  }

  predicate DistinctKeys(axes: seq<Axis>) {
    forall i, j :: 0 <= i < j < |axes| ==> axes[i].key != axes[j].key
  }

  lemma {:induction false} WithEachMembers(entry: Entry, key: string, values: seq<string>, e: Entry)
    ensures e in WithEach(entry, key, values) <==> key in e && e[key] in values && e == entry[key := e[key]]
  {
    if values != [] {
      WithEachMembers(entry, key, values[..|values| - 1], e);
    }
  }

  /** Entry e is one of the entries with a value for the key added. */
  predicate AddsTo(e: Entry, entries: seq<Entry>, key: string) {
    key in e && exists b :: b in entries && e == b[key := e[key]]
  }

  lemma AddsToJoin(e: Entry, entries: seq<Entry>, last: Entry, key: string)
    ensures AddsTo(e, entries + [last], key) <==> AddsTo(e, entries, key) || (key in e && e == last[key := e[key]])
  {
    if AddsTo(e, entries, key) {
      var b :| b in entries && e == b[key := e[key]];
      assert b in entries + [last];
    }
    assert last in entries + [last];
  }

  lemma {:induction false} ExtendedMembers(entries: seq<Entry>, axis: Axis, e: Entry)
    ensures e in Extended(entries, axis) <==> AddsTo(e, entries, axis.key) && e[axis.key] in axis.values
  {
    if entries != [] {
      var init := entries[..|entries| - 1];
      var last := entries[|entries| - 1];
      ExtendedMembers(init, axis, e);
      WithEachMembers(last, axis.key, axis.values, e);
      assert entries == init + [last];
      AddsToJoin(e, init, last, axis.key);
    }
  }

  lemma ChoicesExtend(init: seq<Axis>, last: Axis, b: Entry, v: string)
    requires DistinctKeys(init + [last]) && Chooses(b, init) && v in last.values
    ensures Chooses(b[last.key := v], init + [last])
  {
    var axes, e := init + [last], b[last.key := v];
    forall k | k in e
      ensures exists i :: 0 <= i < |axes| && axes[i].key == k
    {
      if k == last.key {
        assert axes[|init|].key == k;
      } else {
        var i :| 0 <= i < |init| && init[i].key == k;
        assert axes[i].key == k;
      }
    }
    forall i | 0 <= i < |axes|
      ensures axes[i].key in e && e[axes[i].key] in axes[i].values
    {
      if i < |init| {
        assert axes[i].key != axes[|init|].key;
      }
    }
  }

  lemma ChoicesRestrict(init: seq<Axis>, last: Axis, e: Entry)
    requires DistinctKeys(init + [last]) && Chooses(e, init + [last])
    ensures last.key in e && e[last.key] in last.values && Chooses(e - {last.key}, init)
  {
    var axes, b := init + [last], e - {last.key};
    assert axes[|init|] == last;
    forall k | k in b
      ensures exists i :: 0 <= i < |init| && init[i].key == k
    {
      var i :| 0 <= i < |axes| && axes[i].key == k;
      assert i < |init| && init[i] == axes[i];
    }
    forall i | 0 <= i < |init|
      ensures init[i].key in b && b[init[i].key] in init[i].values
    {
      assert axes[i] == init[i] && axes[i].key != axes[|init|].key;
    }
  }

  lemma AddsToOne(e: Entry, entries: seq<Entry>, key: string)
    requires key in e && e - {key} in entries
    ensures AddsTo(e, entries, key)
  {
    assert e == (e - {key})[key := e[key]];
  }

  lemma DistinctInit(init: seq<Axis>, last: Axis)
    requires DistinctKeys(init + [last])
    ensures DistinctKeys(init)
  {
    assert forall i :: 0 <= i < |init| ==> (init + [last])[i] == init[i];
  }

  lemma NoAxisNoChoice(e: Entry)
    ensures e in Combinations([]) <==> Chooses(e, [])
  {
    assert Combinations([]) == [map[]];
  }

  lemma {:induction false} CombinationsChoose(axes: seq<Axis>, e: Entry)
    requires DistinctKeys(axes) && e in Combinations(axes)
    ensures Chooses(e, axes)
  {
    if axes == [] {
      NoAxisNoChoice(e);
    } else {
      var init, last := axes[..|axes| - 1], axes[|axes| - 1];
      assert axes == init + [last];
      DistinctInit(init, last);
      ExtendedMembers(Combinations(init), last, e);
      var b :| b in Combinations(init) && e == b[last.key := e[last.key]];
      CombinationsChoose(init, b);
      ChoicesExtend(init, last, b, e[last.key]);
    }
  }

  lemma {:induction false} ChoicesCombine(axes: seq<Axis>, e: Entry)
    requires DistinctKeys(axes) && Chooses(e, axes)
    ensures e in Combinations(axes)
  {
    if axes == [] {
      NoAxisNoChoice(e);
    } else {
      var init, last := axes[..|axes| - 1], axes[|axes| - 1];
      assert axes == init + [last];
      DistinctInit(init, last);
      ChoicesRestrict(init, last, e);
      ChoicesCombine(init, e - {last.key});
      AddsToOne(e, Combinations(init), last.key);
      ExtendedMembers(Combinations(init), last, e);
    }
  }

  /** The product holds exactly the assignments of one value to each axis. */
  lemma CombinationsAreChoices(axes: seq<Axis>, e: Entry)
    requires DistinctKeys(axes)
    ensures e in Combinations(axes) <==> Chooses(e, axes)
  {
    if e in Combinations(axes) { CombinationsChoose(axes, e); }
    if Chooses(e, axes) { ChoicesCombine(axes, e); }
  }

  // ----- what a job expands to

  predicate NoValue(axes: seq<Axis>) {
    exists i :: 0 <= i < |axes| && axes[i].values == []
  }

  /** The fields of an entry of the job, besides its name: an included entry; or else a value for each axis of its
      matrix, and no field at all if some axis has no value. */
  predicate JobFields(job: Job, b: Entry) {
    if job.explicit.Some? then b in job.explicit.value
    else if NoValue(job.axes) then b == map[]
    else Chooses(b, job.axes)
  }

  lemma {:induction false} NamedMembers(id: string, entries: seq<Entry>, e: Entry)
    ensures e in Named(id, entries) <==> exists b :: b in entries && e == map["job" := id] + b
    ensures |Named(id, entries)| == |entries|
  {
    if entries != [] {
      var init, last := entries[..|entries| - 1], entries[|entries| - 1];
      NamedMembers(id, init, e);
      if b :| b in entries && e == map["job" := id] + b {
        assert b in init || b == last;
      }
      assert last in entries;
    }
  }

  lemma {:induction false} WithEachCounts(entry: Entry, key: string, values: seq<string>)
    ensures |WithEach(entry, key, values)| == |values|
  {
    if values != [] {
      WithEachCounts(entry, key, values[..|values| - 1]);
    }
  }

  lemma {:induction false} ExtendedCounts(entries: seq<Entry>, axis: Axis)
    ensures |Extended(entries, axis)| == |entries| * |axis.values|
  {
    if entries != [] {
      ExtendedCounts(entries[..|entries| - 1], axis);
      WithEachCounts(entries[|entries| - 1], axis.key, axis.values);
    }
  }

  /** The number of ways of choosing a value for each axis. */
  function Choices(axes: seq<Axis>): nat {
    if axes == [] then 1 else Choices(axes[..|axes| - 1]) * |axes[|axes| - 1].values|
  }

  lemma {:induction false} CombinationsCount(axes: seq<Axis>)
    ensures |Combinations(axes)| == Choices(axes)
  {
    if axes != [] {
      CombinationsCount(axes[..|axes| - 1]);
      ExtendedCounts(Combinations(axes[..|axes| - 1]), axes[|axes| - 1]);
    }
  }

  lemma {:induction false} NoChoiceIffNoValue(axes: seq<Axis>)
    ensures Choices(axes) == 0 <==> NoValue(axes)
  {
    if axes != [] {
      var init, last := axes[..|axes| - 1], axes[|axes| - 1];
      NoChoiceIffNoValue(init);
      if NoValue(axes) {
        var i :| 0 <= i < |axes| && axes[i].values == [];
        assert i < |init| ==> init[i] == axes[i];
      }
      if NoValue(init) {
        var i :| 0 <= i < |init| && init[i].values == [];
        assert axes[i].values == [];
      }
      if last.values == [] {
        assert axes[|axes| - 1].values == [];
      }
    }
  }

  /** The entries of a job are exactly its fields under its name, one for each included entry or choice of values, and
      one if there is no such choice. */
  lemma ExpandJobExact(job: Job, e: Entry)
    requires DistinctKeys(job.axes)
    ensures e in ExpandJob(job) <==> exists b :: JobFields(job, b) && e == map["job" := job.id] + b
    ensures |ExpandJob(job)| == if job.explicit.Some? then |job.explicit.value|
                                else if NoValue(job.axes) then 1 else Choices(job.axes)
  {
    var product := Combinations(job.axes);
    var entries := if job.explicit.Some? then job.explicit.value else if product == [] then [map[]] else product;
    CombinationsCount(job.axes);
    NoChoiceIffNoValue(job.axes);
    NamedMembers(job.id, entries, e);
    forall b
      ensures b in entries <==> JobFields(job, b)
    {
      CombinationsAreChoices(job.axes, b);
    }
  }

  // ----- identities

  function Identity(e: Entry): Entry { e - {Field} }

  function Identities(entries: seq<Entry>): set<Entry> {
    set e | e in entries :: Identity(e)
  }

  function Tagged(entries: seq<Entry>, tag: string): (r: seq<Entry>)
    ensures |r| == |entries|
    ensures forall i :: 0 <= i < |entries| ==>
      Identity(r[i]) == Identity(entries[i]) && Field in r[i] && r[i][Field] == tag
  {
    if entries == [] then []
    else Tagged(entries[..|entries| - 1], tag) + [entries[|entries| - 1][Field := tag]]
  }

  predicate Distinct(entries: seq<Entry>) {
    forall i, j :: 0 <= i < j < |entries| ==> Identity(entries[i]) != Identity(entries[j])
  }

  lemma TaggedIdentities(entries: seq<Entry>, tag: string)
    ensures Identities(Tagged(entries, tag)) == Identities(entries)
  {
    var t := Tagged(entries, tag);
    forall x
      ensures x in Identities(t) <==> x in Identities(entries)
    {
      if x in Identities(entries) {
        var i :| 0 <= i < |entries| && Identity(entries[i]) == x;
        assert t[i] in t;
      }
      if x in Identities(t) {
        var i :| 0 <= i < |t| && Identity(t[i]) == x;
        assert entries[i] in entries;
      }
    }
  }

  lemma IdentitiesJoin(a: seq<Entry>, b: seq<Entry>)
    ensures Identities(a + b) == Identities(a) + Identities(b)
  {
  }

  // ----- removing duplicates

  const Both: string := "smoke+group"

  predicate AllTagged(entries: seq<Entry>) {
    forall e :: e in entries ==> Field in e && e[Field] in {"smoke", "group"}
  }

  /** The tags an identity occurs with. */
  function Tags(entries: seq<Entry>, x: Entry): set<string>
    requires AllTagged(entries)
  {
    set e | e in entries && Identity(e) == x :: e[Field]
  }

  /** An entry of the result tells how its job was selected: by the one tag it occurs with, or by both. */
  predicate TellsTags(e: Entry, entries: seq<Entry>)
    requires AllTagged(entries)
  {
    Field in e && Tags(entries, Identity(e)) == if e[Field] == Both then {"smoke", "group"} else {e[Field]}
  }

  ghost predicate Deduplicated(entries: seq<Entry>, result: seq<Entry>)
    requires AllTagged(entries)
  {
    && Distinct(result) && Identities(result) == Identities(entries)
    && forall i :: 0 <= i < |result| ==> TellsTags(result[i], entries)
  }

  lemma TagsJoin(entries: seq<Entry>, e: Entry, x: Entry)
    requires AllTagged(entries + [e])
    ensures AllTagged(entries)
    ensures Tags(entries + [e], x) == Tags(entries, x) + if Identity(e) == x then {e[Field]} else {}
  {
    assert forall d :: d in entries ==> d in entries + [e];
    assert AllTagged(entries);
    assert e in entries + [e];
  }

  /** Adding an entry of a new job. */
  lemma AppendDeduplicated(entries: seq<Entry>, result: seq<Entry>, e: Entry)
    requires AllTagged(entries + [e])
    requires AllTagged(entries) && Deduplicated(entries, result) && Identity(e) !in Identities(result)
    ensures Deduplicated(entries + [e], result + [e])
  {
    IdentitiesJoin(entries, [e]);
    IdentitiesJoin(result, [e]);
    assert e in entries + [e];
    forall i | 0 <= i < |result + [e]|
      ensures TellsTags((result + [e])[i], entries + [e])
    {
      var x := Identity((result + [e])[i]);
      TagsJoin(entries, e, x);
      if i < |result| {
        assert x in Identities(result);
      } else {
        assert Tags(entries, x) == {} by {
          forall d | d in entries ensures Identity(d) != x { assert Identity(d) in Identities(entries); }
        }
      }
    }
  }

  lemma RetagKeepsIdentity(e: Entry, tag: string)
    ensures Identity(e[Field := tag]) == Identity(e)
  {
  }

  function Merge(r: Entry, e: Entry): (m: Entry)
    requires Field in r && Field in e
    ensures Field in m
  {
    if r[Field] != e[Field] then r[Field := Both] else r
  }

  lemma MergeTells(entries: seq<Entry>, r: Entry, e: Entry)
    requires AllTagged(entries + [e])
    requires AllTagged(entries) && TellsTags(r, entries) && Identity(r) == Identity(e) && Field in e
    ensures Identity(Merge(r, e)) == Identity(r) && TellsTags(Merge(r, e), entries + [e])
  {
    assert e in entries + [e];
    RetagKeepsIdentity(r, Both);
    TagsJoin(entries, e, Identity(r));
  }

  lemma TellsMore(entries: seq<Entry>, r: Entry, e: Entry)
    requires AllTagged(entries + [e])
    requires AllTagged(entries) && TellsTags(r, entries) && Identity(r) != Identity(e)
    ensures TellsTags(r, entries + [e])
  {
    TagsJoin(entries, e, Identity(r));
  }

  lemma ReplaceKeepsIdentities(result: seq<Entry>, k: nat, m: Entry)
    requires k < |result| && Identity(m) == Identity(result[k])
    ensures Identities(result[k := m]) == Identities(result) && (Distinct(result) ==> Distinct(result[k := m]))
  {
    assert forall i :: 0 <= i < |result| ==> Identity(result[k := m][i]) == Identity(result[i]);
    SameIdentities(result[k := m], result);
  }

  lemma KnownIdentityJoins(entries: seq<Entry>, e: Entry)
    requires Identity(e) in Identities(entries)
    ensures Identities(entries + [e]) == Identities(entries)
  {
    IdentitiesJoin(entries, [e]);
  }

  /** Merging an entry into that of the same job. */
  lemma MergeDeduplicated(entries: seq<Entry>, result: seq<Entry>, e: Entry, k: nat)
    requires AllTagged(entries + [e]) && Field in e
    requires AllTagged(entries) && Deduplicated(entries, result) && k < |result| && Identity(result[k]) == Identity(e)
    ensures Deduplicated(entries + [e], result[k := Merge(result[k], e)])
  {
    MergeTells(entries, result[k], e);
    ReplaceKeepsIdentities(result, k, Merge(result[k], e));
    IdentityAt(result, k);
    KnownIdentityJoins(entries, e);
    forall i | 0 <= i < |result| && i != k
      ensures TellsTags(result[i], entries + [e])
    {
      assert Identity(result[i]) != Identity(result[k]) by { assert i < k || k < i; }
      TellsMore(entries, result[i], e);
    }
  }

  lemma SameIdentities(a: seq<Entry>, b: seq<Entry>)
    requires |a| == |b| && forall i :: 0 <= i < |a| ==> Identity(a[i]) == Identity(b[i])
    ensures Identities(a) == Identities(b)
  {
    forall x
      ensures x in Identities(a) <==> x in Identities(b)
    {
      if x in Identities(a) {
        var i :| 0 <= i < |a| && Identity(a[i]) == x;
        assert b[i] in b;
      }
      if x in Identities(b) {
        var i :| 0 <= i < |b| && Identity(b[i]) == x;
        assert a[i] in a;
      }
    }
  }

  function Position(entries: seq<Entry>, x: Entry): (k: nat)
    requires x in Identities(entries)
    ensures k < |entries| && Identity(entries[k]) == x
  {
    if Identity(entries[0]) == x then 0
    else
      assert entries == [entries[0]] + entries[1..];
      assert x in Identities(entries[1..]);
      1 + Position(entries[1..], x)
  }

  /** Each job once, in the order of its first entry. */
  function Dedup(entries: seq<Entry>): (r: seq<Entry>)
    requires AllTagged(entries)
    ensures forall i :: 0 <= i < |r| ==> Field in r[i]
  {
    if entries == [] then []
    else
      var e := entries[|entries| - 1];
      var d := Dedup(entries[..|entries| - 1]);
      if Identity(e) !in Identities(d) then d + [e]
      else
        var k := Position(d, Identity(e));
        d[k := Merge(d[k], e)]
  }

  /** Removing duplicates keeps every job exactly once and tells for each whether it is smoke, group or both. */
  lemma {:induction false} DedupKeepsJobs(entries: seq<Entry>)
    requires AllTagged(entries)
    ensures Deduplicated(entries, Dedup(entries))
  {
    if entries != [] {
      var init := entries[..|entries| - 1];
      var e := entries[|entries| - 1];
      DedupKeepsJobs(init);
      assert entries == init + [e];
      if Identity(e) !in Identities(Dedup(init)) {
        AppendDeduplicated(init, Dedup(init), e);
      } else {
        MergeDeduplicated(init, Dedup(init), e, Position(Dedup(init), Identity(e)));
      }
    }
  }

  /** What comes later does not move the jobs that came before. */
  lemma {:induction false} DedupPrefix(a: seq<Entry>, b: seq<Entry>)
    requires AllTagged(a) && AllTagged(b) && AllTagged(a + b)
    ensures |Dedup(a)| <= |Dedup(a + b)|
    ensures forall i :: 0 <= i < |Dedup(a)| ==> Identity(Dedup(a + b)[i]) == Identity(Dedup(a)[i])
    decreases |b|
  {
    if b == [] {
      assert a + b == a;
    } else {
      var init, e := b[..|b| - 1], b[|b| - 1];
      assert (a + b)[..|a + b| - 1] == a + init;
      DedupPrefix(a, init);
      var d := Dedup(a + init);
      if Identity(e) in Identities(d) {
        RetagKeepsIdentity(d[Position(d, Identity(e))], Both);
      }
    }
  }

  /** The same jobs in the same order. */
  predicate SameJobs(a: seq<Entry>, b: seq<Entry>) {
    |a| == |b| && forall i :: 0 <= i < |a| ==> Identity(a[i]) == Identity(b[i])
  }

  lemma SameJobsAppend(d: seq<Entry>, a: seq<Entry>)
    requires a != [] && SameJobs(d, a[..|a| - 1])
    ensures SameJobs(d + [a[|a| - 1]], a)
  {
    assert forall i :: 0 <= i < |a| - 1 ==> a[..|a| - 1][i] == a[i];
  }

  lemma DistinctLast(d: seq<Entry>, a: seq<Entry>)
    requires a != [] && Distinct(a) && SameJobs(d, a[..|a| - 1])
    ensures Identity(a[|a| - 1]) !in Identities(d)
  {
    assert forall i :: 0 <= i < |a| - 1 ==> a[..|a| - 1][i] == a[i];
  }

  lemma DedupNew(a: seq<Entry>)
    requires a != [] && AllTagged(a) && Identity(a[|a| - 1]) !in Identities(Dedup(a[..|a| - 1]))
    ensures Dedup(a) == Dedup(a[..|a| - 1]) + [a[|a| - 1]]
  {
  }

  lemma {:induction false} DedupOfDistinct(a: seq<Entry>)
    requires AllTagged(a) && Distinct(a)
    ensures SameJobs(Dedup(a), a)
  {
    if a != [] {
      var init := a[..|a| - 1];
      DedupOfDistinct(init);
      DistinctLast(Dedup(init), a);
      DedupNew(a);
      SameJobsAppend(Dedup(init), a);
    }
  }

  lemma IdentityAt(entries: seq<Entry>, i: nat)
    requires i < |entries|
    ensures Identity(entries[i]) in Identities(entries)
  {
  }

  lemma DedupDistinct(entries: seq<Entry>)
    requires AllTagged(entries)
    ensures Distinct(Dedup(entries))
  {
    DedupKeepsJobs(entries);
  }

  /** `seen` finds the entry of each job. */
  ghost predicate Indexes(seen: map<Entry, nat>, result: seq<Entry>) {
    && seen.Keys == Identities(result)
    && forall x :: x in seen ==> seen[x] < |result| && Identity(result[seen[x]]) == x
  }

  lemma IndexesAppend(seen: map<Entry, nat>, result: seq<Entry>, e: Entry)
    requires Indexes(seen, result)
    ensures Indexes(seen[Identity(e) := |result|], result + [e])
  {
    IdentitiesJoin(result, [e]);
  }

  lemma IndexesReplace(seen: map<Entry, nat>, result: seq<Entry>, k: nat, m: Entry)
    requires Indexes(seen, result) && k < |result| && Identity(m) == Identity(result[k])
    ensures Indexes(seen, result[k := m])
  {
    ReplaceKeepsIdentities(result, k, m);
  }

  lemma PositionUnique(entries: seq<Entry>, k: nat)
    requires Distinct(entries) && k < |entries|
    ensures Identity(entries[k]) in Identities(entries) && Position(entries, Identity(entries[k])) == k
  {
    IdentityAt(entries, k);
    var p := Position(entries, Identity(entries[k]));
    assert !(p < k) && !(k < p);
  }

  method DeduplicateMatrix(entries: seq<Entry>) returns (result: seq<Entry>)
    requires AllTagged(entries)
    ensures result == Dedup(entries)
  {
    result := [];
    var seen: map<Entry, nat> := map[];
    for n := 0 to |entries|
      invariant AllTagged(entries[..n]) && result == Dedup(entries[..n]) && Indexes(seen, result)
    {
      var e := entries[n];
      assert entries[..n + 1][..n] == entries[..n];
      var key := Identity(e);
      if key !in seen {
        IndexesAppend(seen, result, e);
        seen := seen[key := |result|];
        result := result + [e];
      } else {
        var k := seen[key];
        DedupDistinct(entries[..n]);
        PositionUnique(result, k);
        RetagKeepsIdentity(result[k], Both);
        IndexesReplace(seen, result, k, Merge(result[k], e));
        if result[k][Field] != e[Field] {
          result := result[k := result[k][Field := Both]];
        }
      }
    }
    assert entries[..|entries|] == entries;
  }

  // ----- which groups a change selects

  predicate MatchesAny(matches: Matcher, path: string, patterns: seq<string>) {
    exists q :: q in patterns && matches(path, q)
  }

  predicate IsProduction(c: Catalog, path: string) {
    exists q :: q in c.productionPrefixes && |q| <= |path| && path[..|q|] == q
  }

  /** The groups of the rules that match one of the paths. */
  function PathGroups(matches: Matcher, rules: seq<PathRule>, paths: seq<string>): set<string> {
    set r, g | r in rules && g in r.groups && RuleMatches(matches, r, paths) :: g
  }

  /** The paths some rule matches. */
  function Classified(matches: Matcher, rules: seq<PathRule>, paths: seq<string>): set<string> {
    set p | p in paths && exists r :: r in rules && MatchesAny(matches, p, r.patterns)
  }

  predicate RuleMatches(matches: Matcher, r: PathRule, paths: seq<string>) {
    exists p :: p in paths && MatchesAny(matches, p, r.patterns)
  }

  lemma PathGroupsJoin(matches: Matcher, rules: seq<PathRule>, r: PathRule, paths: seq<string>)
    ensures PathGroups(matches, rules + [r], paths)
      == PathGroups(matches, rules, paths) + if RuleMatches(matches, r, paths) then (set g | g in r.groups) else {}
  {
    forall g
      ensures g in PathGroups(matches, rules + [r], paths) <==>
        g in PathGroups(matches, rules, paths) || (RuleMatches(matches, r, paths) && g in r.groups)
    {
      if g in PathGroups(matches, rules, paths) {
        var s :| s in rules && g in s.groups && RuleMatches(matches, s, paths);
        assert s in rules + [r];
      }
      assert r in rules + [r];
    }
  }

  lemma ClassifiedJoin(matches: Matcher, rules: seq<PathRule>, r: PathRule, paths: seq<string>)
    ensures Classified(matches, rules + [r], paths)
      == Classified(matches, rules, paths) + set p | p in paths && MatchesAny(matches, p, r.patterns)
  {
    forall p | p in paths
      ensures p in Classified(matches, rules + [r], paths) <==>
        p in Classified(matches, rules, paths) || MatchesAny(matches, p, r.patterns)
    {
      if p in Classified(matches, rules, paths) {
        var s :| s in rules && MatchesAny(matches, p, s.patterns);
        assert s in rules + [r];
      }
      assert r in rules + [r];
    }
  }

  method MatchedPathGroups(matches: Matcher, c: Catalog, paths: seq<string>)
    returns (groups: set<string>, classified: set<string>)
    ensures groups == PathGroups(matches, c.pathRules, paths)
    ensures classified == Classified(matches, c.pathRules, paths)
  {
    groups, classified := {}, {};
    for n := 0 to |c.pathRules|
      invariant groups == PathGroups(matches, c.pathRules[..n], paths)
      invariant classified == Classified(matches, c.pathRules[..n], paths)
    {
      var rule := c.pathRules[n];
      assert c.pathRules[..n + 1] == c.pathRules[..n] + [rule];
      PathGroupsJoin(matches, c.pathRules[..n], rule, paths);
      ClassifiedJoin(matches, c.pathRules[..n], rule, paths);
      var matched := set p | p in paths && MatchesAny(matches, p, rule.patterns);
      assert RuleMatches(matches, rule, paths) <==> matched != {} by {
        if RuleMatches(matches, rule, paths) {
          var p :| p in paths && MatchesAny(matches, p, rule.patterns);
          assert p in matched;
        }
      }
      if matched != {} {
        groups := groups + set g | g in rule.groups;
        classified := classified + matched;
      }
    }
    assert c.pathRules[..|c.pathRules|] == c.pathRules;
  }

  /** Why the whole suite is needed. */
  datatype Reason =
    | NoReason | Forced(text: string) | CatalogForces | LabelRequests | SharedPath(path: string)
    | UnclassifiedPath(path: string) | ManyGroups(count: nat)

  /** A full path of the catalog matches the changed path. */
  predicate Shared(matches: Matcher, c: Catalog, p: string) {
    exists q :: q in c.fullPaths && matches(p, q)
  }

  /** The changed path is production code and no path rule knows it. */
  predicate Unclassified(matches: Matcher, c: Catalog, p: string) {
    && (exists q :: q in c.productionPrefixes && q <= p)
    && (forall r, q :: r in c.pathRules && q in r.patterns ==> !matches(p, q))
  }

  predicate NeedsFull(matches: Matcher, c: Catalog, paths: seq<string>, labels: set<string>) {
    || c.forceFull || "e2e:full" in labels
    || (exists p :: p in paths && Shared(matches, c, p)) || (exists p :: p in paths && Unclassified(matches, c, p))
    || |PathGroups(matches, c.pathRules, paths)| >= c.fullThreshold
  }

  /** The path is the first of which the test holds. */
  ghost predicate IsFirst(paths: seq<string>, wanted: string -> bool, p: string) {
    exists i: nat :: i < |paths| && paths[i] == p && wanted(p) && forall j: nat :: j < i ==> !wanted(paths[j])
  }

  predicate NoneOf(paths: seq<string>, wanted: string -> bool) {
    forall p :: p in paths ==> !wanted(p)
  }

  /** The reason is true of the request, and none that goes before it is. */
  ghost predicate FirstReason(matches: Matcher, c: Catalog, paths: seq<string>, labels: set<string>, r: Reason) {
    var shared := (p: string) => Shared(matches, c, p);
    var unclassified := (p: string) => Unclassified(matches, c, p);
    match r
    case NoReason => !NeedsFull(matches, c, paths, labels)
    case Forced(_) => false
    case CatalogForces => c.forceFull
    case LabelRequests => !c.forceFull && "e2e:full" in labels
    case SharedPath(p) => !c.forceFull && "e2e:full" !in labels && IsFirst(paths, shared, p)
    case UnclassifiedPath(p) =>
      !c.forceFull && "e2e:full" !in labels && NoneOf(paths, shared) && IsFirst(paths, unclassified, p)
    case ManyGroups(n) =>
      && !c.forceFull && "e2e:full" !in labels && NoneOf(paths, shared) && NoneOf(paths, unclassified)
      && n == |PathGroups(matches, c.pathRules, paths)| >= c.fullThreshold
  }

  function FirstPath(paths: seq<string>, wanted: string -> bool): Option<string> {
    if paths == [] then None else if wanted(paths[0]) then Some(paths[0]) else FirstPath(paths[1..], wanted)
  }

  /** Two tests that agree on the paths find the same one. */
  lemma {:induction false} FirstPathFinds(paths: seq<string>, wanted: string -> bool, test: string -> bool)
    requires forall p :: p in paths ==> (wanted(p) <==> test(p))
    ensures var f := FirstPath(paths, wanted);
      (f.Some? ==> IsFirst(paths, test, f.value)) && (f.None? ==> NoneOf(paths, test))
  {
    if paths != [] && wanted(paths[0]) {
      assert IsFirst(paths, test, paths[0]);
    } else if paths != [] {
      FirstPathFinds(paths[1..], wanted, test);
      var f := FirstPath(paths[1..], wanted);
      assert forall p :: p in paths ==> p == paths[0] || p in paths[1..];
      if f.Some? {
        var i: nat :| i < |paths[1..]| && paths[1..][i] == f.value && test(f.value)
                      && forall j: nat :: j < i ==> !test(paths[1..][j]);
        assert paths[i + 1] == f.value;
        assert forall j: nat :: 0 < j < i + 1 ==> paths[j] == paths[1..][j - 1];
        assert IsFirst(paths, test, f.value);
      }
    }
  }

  function FullReason(matches: Matcher, c: Catalog, paths: seq<string>, labels: set<string>, groups: set<string>,
                      classified: set<string>): Reason {
    if c.forceFull then CatalogForces
    else if "e2e:full" in labels then LabelRequests
    else
      var shared := FirstPath(paths, p => MatchesAny(matches, p, c.fullPaths));
      if shared.Some? then SharedPath(shared.value)
      else
        var unknown := FirstPath(paths, p => IsProduction(c, p) && p !in classified);
        if unknown.Some? then UnclassifiedPath(unknown.value)
        else if |groups| >= c.fullThreshold then ManyGroups(|groups|) else NoReason
  }

  /** There is a reason exactly when the whole suite is needed: the first, in the order of the catalog, the label, the
      shared paths, the unclassified paths and the number of groups, that is true; a path it names is the first such. */
  lemma FullReasonExact(matches: Matcher, c: Catalog, paths: seq<string>, labels: set<string>)
    ensures var r := FullReason(matches, c, paths, labels, PathGroups(matches, c.pathRules, paths),
                                Classified(matches, c.pathRules, paths));
      (r.NoReason? <==> !NeedsFull(matches, c, paths, labels)) && FirstReason(matches, c, paths, labels, r)
  {
    var classified := Classified(matches, c.pathRules, paths);
    FirstPathFinds(paths, p => MatchesAny(matches, p, c.fullPaths), p => Shared(matches, c, p));
    forall p | p in paths
      ensures IsProduction(c, p) && p !in classified <==> Unclassified(matches, c, p)
    {
      UnclassifiedIff(matches, c, paths, p);
    }
    FirstPathFinds(paths, p => IsProduction(c, p) && p !in classified, p => Unclassified(matches, c, p));
  }

  lemma UnclassifiedIff(matches: Matcher, c: Catalog, paths: seq<string>, p: string)
    requires p in paths
    ensures IsProduction(c, p) && p !in Classified(matches, c.pathRules, paths) <==> Unclassified(matches, c, p)
  {
    if r, q :| r in c.pathRules && q in r.patterns && matches(p, q) {
      assert MatchesAny(matches, p, r.patterns);
    }
  }

  // ----- selecting

  /** What a valid catalog promises, as far as selection depends on it. */
  predicate ValidCatalog(c: Catalog) {
    && (forall g :: g in c.names ==> g in c.groups) && (forall g :: g in c.groups ==> g in c.names)
    && (forall i, j :: 0 <= i < j < |c.names| ==> c.names[i] != c.names[j])
    && Distinct(ExpandGroups(c, c.names))
    && Identities(c.smoke) <= Identities(ExpandGroups(c, c.names))
    && (forall r, g :: r in c.pathRules && g in r.groups ==> g in c.groups)
    && (forall g, job :: g in c.groups && job in c.groups[g] ==> DistinctKeys(job.axes))
  }

  /** The changed paths are given in sorted order, in which the first that calls for the full suite is looked for. */
  datatype Request = Request(paths: seq<string>, labels: set<string>, groups: set<string>, full: bool, forced: string)

  datatype Plan = Plan(
    matrix: seq<Entry>, full: bool, reason: Reason, selectedGroups: seq<string>, automaticGroups: seq<string>,
    recommendedGroups: seq<string>, approvalRequired: bool, requestedFull: bool)

  /** The groups asked for by labels. */
  function LabelGroups(labels: set<string>): set<string> {
    (set l | l in labels && |l| >= 4 && l[..4] == "e2e:" :: l[4..]) - {"full"}
  }

  /** The names in sorted order that are in the set. */
  function Sorted(names: seq<string>, wanted: set<string>): (r: seq<string>)
    ensures forall g :: g in r <==> g in names && g in wanted
  {
    if names == [] then []
    else
      assert forall g :: g in names <==> g in names[..|names| - 1] || g == names[|names| - 1];
      Sorted(names[..|names| - 1], wanted) + if names[|names| - 1] in wanted then [names[|names| - 1]] else []
  }

  /** The names come in the order of the list. */
  ghost predicate InOrderOf(r: seq<string>, names: seq<string>) {
    forall i, j :: 0 <= i < j < |r| ==> Precedes(names, r[i], r[j])
  }

  ghost predicate Precedes(names: seq<string>, x: string, y: string) {
    exists a, b :: 0 <= a < b < |names| && names[a] == x && names[b] == y
  }

  lemma {:induction false} SortedKeepsOrder(names: seq<string>, wanted: set<string>)
    ensures InOrderOf(Sorted(names, wanted), names)
  {
    if names != [] {
      var last := |names| - 1;
      var init := names[..last];
      var r, s := Sorted(names, wanted), Sorted(init, wanted);
      SortedKeepsOrder(init, wanted);
      forall i, j | 0 <= i < j < |r|
        ensures Precedes(names, r[i], r[j])
      {
        if j < |s| {
          assert Precedes(init, s[i], s[j]);
          var a, b :| 0 <= a < b < |init| && init[a] == s[i] && init[b] == s[j];
          assert names[a] == r[i] && names[b] == r[j];
        } else {
          assert r[i] in s;
          var a :| 0 <= a < |init| && init[a] == r[i];
          assert names[a] == r[i] && names[last] == r[j];
        }
      }
    }
  }

  predicate Accepted(c: Catalog, q: Request) {
    q.groups <= c.groups.Keys && LabelGroups(q.labels) <= c.groups.Keys
  }

  function Automatic(matches: Matcher, c: Catalog, q: Request): Reason {
    if q.forced != "" then Forced(q.forced)
    else FullReason(matches, c, q.paths, q.labels, PathGroups(matches, c.pathRules, q.paths),
                    Classified(matches, c.pathRules, q.paths))
  }

  /** The groups whose jobs a plan runs. */
  function Effective(matches: Matcher, c: Catalog, q: Request): set<string> {
    if !Automatic(matches, c, q).NoReason? || q.full then c.groups.Keys
    else PathGroups(matches, c.pathRules, q.paths) + LabelGroups(q.labels) + q.groups
  }

  function Candidates(c: Catalog, groups: seq<string>): (r: seq<Entry>)
    requires forall g :: g in groups ==> g in c.groups
    ensures AllTagged(r)
  {
    Tagged(c.smoke, "smoke") + Tagged(ExpandGroups(c, groups), "group")
  }

  function Select(matches: Matcher, c: Catalog, q: Request): Result<Plan>
    requires ValidCatalog(c)
  {
    if !(q.groups <= c.groups.Keys) then Err("unknown requested group")
    else if !(LabelGroups(q.labels) <= c.groups.Keys) then Err("unknown label group")
    else
      var automatic := Automatic(matches, c, q);
      var full := !automatic.NoReason? || q.full;
      var groups := Sorted(c.names, Effective(matches, c, q));
      var recommended := if full then [] else
        Sorted(c.names, PathGroups(matches, c.pathRules, q.paths) + LabelGroups(q.labels));
      Ok(Plan(Dedup(Candidates(c, groups)), full,
              if automatic.NoReason? && q.full then Forced("authorized request selected the full suite") else automatic,
              groups, if automatic.NoReason? then [] else c.names, recommended, recommended != [],
              q.full && automatic.NoReason?))
  }

  method ComputePlan(matches: Matcher, c: Catalog, q: Request) returns (r: Result<Plan>)
    requires ValidCatalog(c)
    ensures r == Select(matches, c, q)
  {
    if !(q.groups <= c.groups.Keys) {
      return Err("unknown requested group");
    }
    var labelGroups := LabelGroups(q.labels);
    if !(labelGroups <= c.groups.Keys) {
      return Err("unknown label group");
    }
    var pathGroups, classified := MatchedPathGroups(matches, c, q.paths);
    var automatic := if q.forced != "" then Forced(q.forced)
      else FullReason(matches, c, q.paths, q.labels, pathGroups, classified);
    var full := automatic != NoReason || q.full;
    var recommended := if full then [] else Sorted(c.names, pathGroups + labelGroups);
    var groups := Sorted(c.names, if full then c.groups.Keys else pathGroups + labelGroups + q.groups);
    var matrix := DeduplicateMatrix(Candidates(c, groups));
    return Ok(Plan(matrix, full,
                   if automatic.NoReason? && q.full then Forced("authorized request selected the full suite")
                   else automatic,
                   groups, if automatic.NoReason? then [] else c.names, recommended, recommended != [],
                   q.full && automatic.NoReason?));
  }

  // ----- what a plan covers

  lemma {:induction false} ExpandedIdentities(c: Catalog, groups: seq<string>, x: Entry)
    requires forall g :: g in groups ==> g in c.groups
    ensures x in Identities(ExpandGroups(c, groups)) <==>
      exists g :: g in groups && x in Identities(ExpandJobs(c.groups[g]))
  {
    if groups != [] {
      var init := groups[..|groups| - 1];
      var last := groups[|groups| - 1];
      ExpandedIdentities(c, init, x);
      IdentitiesJoin(ExpandGroups(c, init), ExpandJobs(c.groups[last]));
      if exists g :: g in groups && x in Identities(ExpandJobs(c.groups[g])) {
        var g :| g in groups && x in Identities(ExpandJobs(c.groups[g]));
        assert g in init || g == last;
      }
    }
  }

  lemma CandidateIdentities(c: Catalog, groups: seq<string>)
    requires forall g :: g in groups ==> g in c.groups
    ensures Identities(Candidates(c, groups)) == Identities(c.smoke) + Identities(ExpandGroups(c, groups))
  {
    TaggedIdentities(c.smoke, "smoke");
    TaggedIdentities(ExpandGroups(c, groups), "group");
    IdentitiesJoin(Tagged(c.smoke, "smoke"), Tagged(ExpandGroups(c, groups), "group"));
  }

  /** The request asks for a group of the catalog: the whole suite is needed, requested or forced, the group is
      requested by name or by its label, or a path rule of the group matches a changed path. */
  predicate Wanted(matches: Matcher, c: Catalog, q: Request, g: string) {
    g in c.groups &&
    (|| q.forced != "" || q.full || NeedsFull(matches, c, q.paths, q.labels)
     || g in q.groups || (g != "full" && "e2e:" + g in q.labels)
     || exists r, p, t :: r in c.pathRules && g in r.groups && p in q.paths && t in r.patterns && matches(p, t))
  }

  /** The identity is that of an entry of the job. */
  ghost predicate OfJob(job: Job, x: Entry) {
    exists b :: JobFields(job, b) && x == Identity(map["job" := job.id] + b)
  }

  /** It is that of an entry of one of the jobs. */
  ghost predicate OfJobs(jobs: seq<Job>, x: Entry) {
    exists job :: job in jobs && OfJob(job, x)
  }

  /** It is that of an entry of some job of the catalog. */
  ghost predicate OfCatalog(c: Catalog, x: Entry) {
    exists g :: g in c.groups && OfJobs(c.groups[g], x)
  }

  /** A job is a smoke job, or one of a group that the request asks for. */
  ghost predicate Covers(matches: Matcher, c: Catalog, q: Request, x: Entry) {
    || x in Identities(c.smoke)
    || exists g :: g in c.groups && Wanted(matches, c, q, g) && OfJobs(c.groups[g], x)
  }

  lemma OfJobsLast(jobs: seq<Job>, x: Entry)
    requires jobs != []
    ensures OfJobs(jobs, x)
      <==> OfJobs(jobs[..|jobs| - 1], x) || OfJob(jobs[|jobs| - 1], x)
  {
    assert jobs == jobs[..|jobs| - 1] + [jobs[|jobs| - 1]];
    assert forall job :: job in jobs <==> job in jobs[..|jobs| - 1] || job == jobs[|jobs| - 1];
  }

  lemma OfOneJob(job: Job, x: Entry)
    requires DistinctKeys(job.axes)
    ensures x in Identities(ExpandJob(job)) <==> OfJob(job, x)
  {
    if x in Identities(ExpandJob(job)) {
      var e :| e in ExpandJob(job) && x == Identity(e);
      ExpandJobExact(job, e);
    }
    if b :| JobFields(job, b) && x == Identity(map["job" := job.id] + b) {
      ExpandJobExact(job, map["job" := job.id] + b);
    }
  }

  lemma ExpandJobsLast(jobs: seq<Job>)
    requires jobs != []
    ensures Identities(ExpandJobs(jobs))
      == Identities(ExpandJobs(jobs[..|jobs| - 1])) + Identities(ExpandJob(jobs[|jobs| - 1]))
  {
    IdentitiesJoin(ExpandJobs(jobs[..|jobs| - 1]), ExpandJob(jobs[|jobs| - 1]));
  }

  lemma {:induction false} ExpandedJobs(jobs: seq<Job>, x: Entry)
    requires forall job :: job in jobs ==> DistinctKeys(job.axes)
    ensures x in Identities(ExpandJobs(jobs)) <==> OfJobs(jobs, x)
  {
    if jobs != [] {
      var init, last := jobs[..|jobs| - 1], jobs[|jobs| - 1];
      assert last in jobs && forall job :: job in init ==> job in jobs;
      ExpandedJobs(init, x);
      ExpandJobsLast(jobs);
      OfOneJob(last, x);
      OfJobsLast(jobs, x);
    }
  }

  /** The whole expansion of a valid catalog. */
  lemma ExpandedCatalog(c: Catalog, x: Entry)
    requires ValidCatalog(c)
    ensures x in Identities(ExpandGroups(c, c.names)) <==> OfCatalog(c, x)
  {
    ExpandedIdentities(c, c.names, x);
    forall g | g in c.groups
      ensures x in Identities(ExpandJobs(c.groups[g])) <==> OfJobs(c.groups[g], x)
    {
      ExpandedJobs(c.groups[g], x);
    }
  }

  lemma LabelNamesGroup(labels: set<string>, g: string)
    ensures g in LabelGroups(labels) <==> g != "full" && "e2e:" + g in labels
  {
    assert ("e2e:" + g)[..4] == "e2e:" && ("e2e:" + g)[4..] == g;
    if g in LabelGroups(labels) {
      var l :| l in labels && |l| >= 4 && l[..4] == "e2e:" && l[4..] == g;
      assert l == l[..4] + l[4..];
    }
  }

  /** The effective groups are those asked for. */
  lemma EffectiveIsWanted(matches: Matcher, c: Catalog, q: Request, g: string)
    requires ValidCatalog(c) && Accepted(c, q)
    ensures g in Effective(matches, c, q) <==> Wanted(matches, c, q, g)
  {
    EffectiveKnown(matches, c, q);
    FullReasonExact(matches, c, q.paths, q.labels);
    LabelNamesGroup(q.labels, g);
  }

  lemma EffectiveKnown(matches: Matcher, c: Catalog, q: Request)
    requires ValidCatalog(c) && Accepted(c, q)
    ensures Effective(matches, c, q) <= c.groups.Keys
  {
  }

  lemma JobsCovered(matches: Matcher, c: Catalog, q: Request, x: Entry)
    requires ValidCatalog(c) && Accepted(c, q)
    ensures var groups := Sorted(c.names, Effective(matches, c, q));
      (exists g :: g in groups && x in Identities(ExpandJobs(c.groups[g])))
      <==> exists g :: g in c.groups && Wanted(matches, c, q, g) && OfJobs(c.groups[g], x)
  {
    var groups := Sorted(c.names, Effective(matches, c, q));
    forall g
      ensures g in groups <==> g in c.groups && Wanted(matches, c, q, g)
      ensures g in c.groups ==> (x in Identities(ExpandJobs(c.groups[g])) <==> OfJobs(c.groups[g], x))
    {
      EffectiveIsWanted(matches, c, q, g);
      if g in c.groups {
        ExpandedJobs(c.groups[g], x);
      }
    }
  }

  /** The matrix of an accepted request lists no job twice; its jobs are the smoke jobs and the jobs of the groups asked
      for, no more and no fewer; and a full plan covers the catalog. */
  lemma MatrixExact(matches: Matcher, c: Catalog, q: Request)
    requires ValidCatalog(c) && Accepted(c, q)
    ensures Select(matches, c, q).Ok?
    ensures var p := Select(matches, c, q).value;
      && Distinct(p.matrix)
      && (forall x :: x in Identities(p.matrix) <==> Covers(matches, c, q, x))
      && (p.full ==> forall x :: x in Identities(p.matrix) <==> OfCatalog(c, x))
  {
    var p := Select(matches, c, q).value;
    DedupKeepsJobs(Candidates(c, p.selectedGroups));
    CandidateIdentities(c, p.selectedGroups);
    EffectiveKnown(matches, c, q);
    forall x
      ensures x in Identities(p.matrix) <==> Covers(matches, c, q, x)
      ensures p.full ==> (x in Identities(p.matrix) <==> OfCatalog(c, x))
    {
      JobsCovered(matches, c, q, x);
      ExpandedCatalog(c, x);
      ExpandedIdentities(c, c.names, x);
      ExpandedIdentities(c, p.selectedGroups, x);
    }
  }

  /** The matrix begins with the smoke jobs, in the catalog's order. */
  lemma SmokeComesFirst(matches: Matcher, c: Catalog, q: Request)
    requires ValidCatalog(c) && Accepted(c, q) && Distinct(c.smoke)
    ensures var m := Select(matches, c, q).value.matrix;
      |c.smoke| <= |m| && forall i :: 0 <= i < |c.smoke| ==> Identity(m[i]) == Identity(c.smoke[i])
  {
    EffectiveKnown(matches, c, q);
    CandidatesBegin(c, Select(matches, c, q).value.selectedGroups);
  }

  lemma CandidatesBegin(c: Catalog, groups: seq<string>)
    requires Distinct(c.smoke) && forall g :: g in groups ==> g in c.groups
    ensures var m := Dedup(Candidates(c, groups));
      |c.smoke| <= |m| && forall i :: 0 <= i < |c.smoke| ==> Identity(m[i]) == Identity(c.smoke[i])
  {
    var a, b := Tagged(c.smoke, "smoke"), Tagged(ExpandGroups(c, groups), "group");
    assert AllTagged(a) && AllTagged(b);
    TaggedDistinct(c.smoke, "smoke");
    DedupOfDistinct(a);
    DedupPrefix(a, b);
  }

  /** The rest of a plan: whether the suite is full, why and on whose account, and what is left for approval. */
  lemma PlanReports(matches: Matcher, c: Catalog, q: Request)
    requires ValidCatalog(c) && Accepted(c, q)
    ensures var p := Select(matches, c, q).value;
      var automatic := q.forced != "" || NeedsFull(matches, c, q.paths, q.labels);
      && (p.full <==> automatic || q.full)
      && (if q.forced != "" then p.reason == Forced(q.forced)
          else if automatic || !q.full then FirstReason(matches, c, q.paths, q.labels, p.reason)
          else p.reason == Forced("authorized request selected the full suite"))
      && (p.requestedFull <==> q.full && !automatic)
      && (forall g :: g in p.automaticGroups <==> automatic && g in c.groups)
      && (forall g :: g in p.recommendedGroups <==> !p.full && (g in PathGroups(matches, c.pathRules, q.paths)
                                                               || (g != "full" && "e2e:" + g in q.labels)))
      && (p.approvalRequired <==> exists g :: g in p.recommendedGroups)
      && InOrderOf(p.selectedGroups, c.names) && InOrderOf(p.recommendedGroups, c.names)
  {
    SortedKeepsOrder(c.names, Effective(matches, c, q));
    SortedKeepsOrder(c.names, PathGroups(matches, c.pathRules, q.paths) + LabelGroups(q.labels));
    FullReasonExact(matches, c, q.paths, q.labels);
    EffectiveKnown(matches, c, q);
    forall g
      ensures g in LabelGroups(q.labels) <==> g != "full" && "e2e:" + g in q.labels
    {
      LabelNamesGroup(q.labels, g);
    }
    var p := Select(matches, c, q).value;
    assert p.recommendedGroups != [] ==> p.recommendedGroups[0] in p.recommendedGroups;
  }

  /** A request is refused exactly if it names a group the catalog does not have; one requested by name is told before
      one that a label asks for. */
  lemma RefusedIff(matches: Matcher, c: Catalog, q: Request)
    requires ValidCatalog(c)
    ensures var r := Select(matches, c, q);
      && (r == Err("unknown requested group") <==> exists g :: g in q.groups && g !in c.groups)
      && (r == Err("unknown label group") <==>
            && (forall g :: g in q.groups ==> g in c.groups)
            && exists g :: g != "full" && "e2e:" + g in q.labels && g !in c.groups)
      && (r.Err? ==> r.error == "unknown requested group" || r.error == "unknown label group")
  {
    forall g
      ensures g in LabelGroups(q.labels) <==> g != "full" && "e2e:" + g in q.labels
    {
      LabelNamesGroup(q.labels, g);
    }
    assert "unknown requested group"[8] != "unknown label group"[8];
  }

  lemma TagOccurs(entries: seq<Entry>, tag: string, x: Entry)
    ensures (exists e :: e in Tagged(entries, tag) && Identity(e) == x && e[Field] == tag) <==> x in Identities(entries)
  {
    TaggedIdentities(entries, tag);
    var t := Tagged(entries, tag);
    if x in Identities(entries) {
      var i :| 0 <= i < |t| && Identity(t[i]) == x;
      assert t[i] in t;
    }
  }

  /** The tags of a candidate job say where it comes from. */
  lemma CandidateTags(c: Catalog, groups: seq<string>, x: Entry)
    requires forall g :: g in groups ==> g in c.groups
    ensures "smoke" in Tags(Candidates(c, groups), x) <==> x in Identities(c.smoke)
    ensures "group" in Tags(Candidates(c, groups), x) <==> x in Identities(ExpandGroups(c, groups))
  {
    TagOccurs(c.smoke, "smoke", x);
    TagOccurs(ExpandGroups(c, groups), "group", x);
    var a, b := Tagged(c.smoke, "smoke"), Tagged(ExpandGroups(c, groups), "group");
    assert forall e :: e in a ==> e[Field] == "smoke";
    assert forall e :: e in b ==> e[Field] == "group";
    assert forall e :: e in a + b <==> e in a || e in b;
  }

  /** Each job of the matrix is tagged by how it was selected: as a smoke job, as a job of an effective group, or as
      both. */
  lemma TagsExact(matches: Matcher, c: Catalog, q: Request, i: nat)
    requires ValidCatalog(c) && Accepted(c, q) && i < |Select(matches, c, q).value.matrix|
    ensures var p := Select(matches, c, q).value;
      var x := Identity(p.matrix[i]);
      var smoke := x in Identities(c.smoke);
      var group := x in Identities(ExpandGroups(c, p.selectedGroups));
      Field in p.matrix[i] && p.matrix[i][Field] == if smoke && group then Both else if smoke then "smoke" else "group"
  {
    var p := Select(matches, c, q).value;
    var x := Identity(p.matrix[i]);
    DedupTells(Candidates(c, p.selectedGroups), i);
    CandidateTags(c, p.selectedGroups, x);
    TagOfTags(Tags(Candidates(c, p.selectedGroups), x), p.matrix[i][Field]);
  }

  lemma DedupTells(entries: seq<Entry>, i: nat)
    requires AllTagged(entries) && i < |Dedup(entries)|
    ensures TellsTags(Dedup(entries)[i], entries)
  {
    DedupKeepsJobs(entries);
  }

  /** The tag that a set of tags is told by. */
  lemma TagOfTags(tags: set<string>, tag: string)
    requires tags == (if tag == Both then {"smoke", "group"} else {tag}) && tags <= {"smoke", "group"}
    ensures tag == if "smoke" in tags && "group" in tags then Both else if "smoke" in tags then "smoke" else "group"
  {
    assert tag != Both ==> tag in tags;
    assert "smoke" != "group";
  }

  // ----- monotone, and closed on failure

  /** The second request asks for at least what the first does. */
  predicate AsksMore(q: Request, r: Request) {
    && (forall p :: p in q.paths ==> p in r.paths) && q.labels <= r.labels && q.groups <= r.groups
    && (q.full ==> r.full) && (q.forced != "" ==> r.forced != "")
  }

  lemma MorePathsMoreGroups(matches: Matcher, rules: seq<PathRule>, a: seq<string>, b: seq<string>)
    requires forall p :: p in a ==> p in b
    ensures PathGroups(matches, rules, a) <= PathGroups(matches, rules, b)
  {
    forall g | g in PathGroups(matches, rules, a)
      ensures g in PathGroups(matches, rules, b)
    {
      var r :| r in rules && g in r.groups && RuleMatches(matches, r, a);
      assert RuleMatches(matches, r, b);
    }
  }

  lemma NeedsFullIsMonotone(matches: Matcher, c: Catalog, q: Request, r: Request)
    requires AsksMore(q, r) && NeedsFull(matches, c, q.paths, q.labels)
    ensures NeedsFull(matches, c, r.paths, r.labels)
  {
    MorePathsMoreGroups(matches, c.pathRules, q.paths, r.paths);
    SubsetSize(PathGroups(matches, c.pathRules, q.paths), PathGroups(matches, c.pathRules, r.paths));
  }

  lemma LabelGroupsMonotone(a: set<string>, b: set<string>)
    requires a <= b
    ensures LabelGroups(a) <= LabelGroups(b)
  {
  }

  lemma EffectiveIsMonotone(matches: Matcher, c: Catalog, q: Request, r: Request)
    requires ValidCatalog(c) && Accepted(c, q) && AsksMore(q, r)
    ensures Effective(matches, c, q) <= Effective(matches, c, r)
  {
    FullReasonExact(matches, c, q.paths, q.labels);
    FullReasonExact(matches, c, r.paths, r.labels);
    if NeedsFull(matches, c, q.paths, q.labels) {
      NeedsFullIsMonotone(matches, c, q, r);
    }
    EffectiveKnown(matches, c, q);
    MorePathsMoreGroups(matches, c.pathRules, q.paths, r.paths);
    LabelGroupsMonotone(q.labels, r.labels);
  }

  /** Adding changed paths, labels or requested groups never takes a job out of the matrix. */
  lemma SelectionIsMonotone(matches: Matcher, c: Catalog, q: Request, r: Request)
    requires ValidCatalog(c) && Accepted(c, q) && Accepted(c, r) && AsksMore(q, r)
    ensures Identities(Select(matches, c, q).value.matrix) <= Identities(Select(matches, c, r).value.matrix)
  {
    MatrixExact(matches, c, q);
    MatrixExact(matches, c, r);
    EffectiveIsMonotone(matches, c, q, r);
    forall x | x in Identities(Select(matches, c, q).value.matrix)
      ensures x in Identities(Select(matches, c, r).value.matrix)
    {
      assert Covers(matches, c, q, x);
      if x !in Identities(c.smoke) {
        var g :| g in c.groups && Wanted(matches, c, q, g) && OfJobs(c.groups[g], x);
        EffectiveIsWanted(matches, c, q, g);
        EffectiveIsWanted(matches, c, r, g);
      }
      assert Covers(matches, c, r, x);
    }
  }

  lemma AcceptanceIsAntitone(c: Catalog, q: Request, r: Request)
    requires AsksMore(q, r)
    ensures Accepted(c, r) ==> Accepted(c, q)
  {
    LabelGroupsMonotone(q.labels, r.labels);
  }

  lemma PlanWithinCatalog(matches: Matcher, c: Catalog, q: Request)
    requires ValidCatalog(c) && Accepted(c, q)
    ensures Select(matches, c, q).Ok?
    ensures Identities(Select(matches, c, q).value.matrix) <= Identities(ExpandGroups(c, c.names))
  {
    MatrixExact(matches, c, q);
    forall x | x in Identities(Select(matches, c, q).value.matrix)
      ensures x in Identities(ExpandGroups(c, c.names))
    {
      assert Covers(matches, c, q, x);
      ExpandedCatalog(c, x);
    }
  }

  /** The matrix of a run: the plan's, or on any error the whole workflow's. */
  function RunMatrix(matches: Matcher, c: Catalog, q: Request, workflow: seq<Entry>): seq<Entry>
    requires ValidCatalog(c)
  {
    var p := Select(matches, c, q);
    if p.Ok? then p.value.matrix else Tagged(workflow, "group")
  }

  /** Selection fails closed: with a workflow that defines the catalog's jobs, a request that asks for more never runs
      fewer jobs, even where it is refused for naming an unknown group. */
  lemma SelectionFailsClosed(matches: Matcher, c: Catalog, q: Request, r: Request, workflow: seq<Entry>)
    requires ValidCatalog(c) && AsksMore(q, r)
    requires forall x :: x in Identities(workflow) <==> OfCatalog(c, x)
    ensures Identities(RunMatrix(matches, c, q, workflow)) <= Identities(RunMatrix(matches, c, r, workflow))
    ensures Select(matches, c, q).Err? ==> RunMatrix(matches, c, q, workflow) == Tagged(workflow, "group")
  {
    TaggedIdentities(workflow, "group");
    AcceptanceIsAntitone(c, q, r);
    if Accepted(c, r) {
      SelectionIsMonotone(matches, c, q, r);
    } else if Accepted(c, q) {
      PlanWithinCatalog(matches, c, q);
      forall x | x in Identities(ExpandGroups(c, c.names))
        ensures x in Identities(workflow)
      {
        ExpandedCatalog(c, x);
      }
    }
  }

  // ----- which part of a plan an event runs

  datatype RunEvent = PullRequest | Push | Dispatch

  function Execution(c: Catalog, p: Plan, e: RunEvent): Plan
    requires ValidCatalog(c)
  {
    if p.full then p
    else match e
      case Dispatch => p.(recommendedGroups := [], approvalRequired := false)
      case Push =>
        p.(automaticGroups := c.names, recommendedGroups := [], requestedFull := false, selectedGroups := c.names,
           matrix := Tagged(ExpandGroups(c, c.names), "group"), full := true, approvalRequired := false,
           reason := if p.reason.NoReason? then Forced("push requires the full suite") else p.reason)
      case PullRequest => p.(selectedGroups := [], matrix := Tagged(c.smoke, "smoke"))
  }

  lemma TaggedDistinct(entries: seq<Entry>, tag: string)
    requires Distinct(entries)
    ensures Distinct(Tagged(entries, tag))
  {
  }

  /** Whatever the event, no job runs twice, the smoke jobs run, and nothing outside the plan runs unless it is a
      push; a full plan and a push run the whole catalog; and a pull request that defers groups still asks for
      approval of every group its paths and labels selected. */
  lemma ExecutionCovers(matches: Matcher, c: Catalog, q: Request, e: RunEvent)
    requires ValidCatalog(c) && Distinct(c.smoke) && Accepted(c, q)
    ensures var p := Select(matches, c, q).value;
      var x := Execution(c, p, e);
      && Distinct(x.matrix) && Identities(c.smoke) <= Identities(x.matrix)
      && (e != Push ==> Identities(x.matrix) <= Identities(p.matrix))
      && (e == Push || p.full ==> x.full && forall y :: y in Identities(x.matrix) <==> OfCatalog(c, y))
      && (e == Push && !p.full ==>
            && x.recommendedGroups == [] && !x.approvalRequired && !x.requestedFull
            && x.automaticGroups == x.selectedGroups == c.names && x.reason == Forced("push requires the full suite"))
      && (e == Dispatch ==> x.matrix == p.matrix && x.full == p.full && x.reason == p.reason)
      && (e == Dispatch && !p.full ==> x.recommendedGroups == [] && !x.approvalRequired)
      && (e == PullRequest && !p.full ==>
            && Identities(x.matrix) == Identities(c.smoke) && x.selectedGroups == [] && !x.full
            && (forall g :: g in x.recommendedGroups
                  <==> g in PathGroups(matches, c.pathRules, q.paths) || g in LabelGroups(q.labels))
            && (x.approvalRequired <==> x.recommendedGroups != []))
  {
    MatrixExact(matches, c, q);
    PlanReports(matches, c, q);
    var p := Select(matches, c, q).value;
    TaggedIdentities(c.smoke, "smoke");
    TaggedIdentities(ExpandGroups(c, c.names), "group");
    TaggedDistinct(c.smoke, "smoke");
    TaggedDistinct(ExpandGroups(c, c.names), "group");
    forall y
      ensures y in Identities(ExpandGroups(c, c.names)) <==> OfCatalog(c, y)
    {
      ExpandedCatalog(c, y);
    }
    forall x | x in Identities(c.smoke)
      ensures x in Identities(p.matrix)
    {
      assert Covers(matches, c, q, x);
    }
  }
}
