/** Grouping memory entries into canonical memories linked by relations
    (app/mneme/domains/memory/governance.py). `classify` stands for `classify_memory_relation` and `normalize` for
    `normalize_text`; every result holds for any such functions. */
module MemoryGovernance {
  import opened Sorting

  datatype Entry = Entry(id: string, kind: string, name: string, summary: string, documentId: string,
                         importance: real, createdAt: int)

  datatype RelationType = Duplicate | Contradict | Refine | TemporalUpdate | Supplement

  datatype Relation = Relation(source: string, target: string, kind: RelationType)

  datatype Status = NeedsReview | Merged | Stable | Single

  datatype Canonical = Canonical(representative: Entry, entryIds: seq<string>, evidenceCount: nat,
                                 documents: set<string>,
                                 importance: real, status: Status, firstSeen: int, lastSeen: int)

  type Key = (string, string)

  /** The parts of the program the model leaves open. */
  datatype Env = Env(normalize: string -> string, classify: (Entry, Entry) -> RelationType, round4: real -> real)

  // ----- groups

  function KeyOf(env: Env, e: Entry): Key {
    (env.normalize(e.kind), env.normalize(e.name))
  }

  predicate Eligible(env: Env, e: Entry) {
    KeyOf(env, e).0 != "" && KeyOf(env, e).1 != ""
  }

  function Eligibles(env: Env): Entry -> bool {
    (e: Entry) => Eligible(env, e)
  }

  function WithKey(env: Env, k: Key): Entry -> bool {
    (e: Entry) => Eligible(env, e) && KeyOf(env, e) == k
  }

  function Group(env: Env, entries: seq<Entry>, k: Key): seq<Entry> {
    Filter(WithKey(env, k), entries)
  }

  /** The keys of eligible entries in order of first appearance, as the dictionary keeps them. */
  function Keys(env: Env, entries: seq<Entry>): (ks: seq<Key>)
    ensures Distinct(ks)
    ensures forall k :: k in ks <==> exists e :: e in entries && Eligible(env, e) && KeyOf(env, e) == k
  {
    if entries == [] then []
    else
      var n := |entries| - 1;
      var ks := Keys(env, entries[..n]);
      var e := entries[n];
      assert entries == entries[..n] + [e];
      if Eligible(env, e) && KeyOf(env, e) !in ks then ks + [KeyOf(env, e)] else ks
  }

  // ----- one group

  /** Earlier first, identifiers break ties. */
  predicate Earlier(x: Entry, y: Entry) {
    x.createdAt < y.createdAt || (x.createdAt == y.createdAt && StrLess(x.id, y.id))
  }

  predicate EarlierSeen(x: Entry, y: Entry) {
    x.createdAt < y.createdAt
  }

  function Timeline(group: seq<Entry>): seq<Entry> {
    Sort(group, Earlier)
  }

  /** Each entry of the timeline is related to the next one. */
  function Links(env: Env, timeline: seq<Entry>): (r: seq<Relation>)
    ensures |r| == if |timeline| < 2 then 0 else |timeline| - 1
    ensures forall i | 0 <= i < |r| ::
              r[i] == Relation(timeline[i].id, timeline[i + 1].id, env.classify(timeline[i], timeline[i + 1]))
  {
    if |timeline| < 2 then []
    else [Relation(timeline[0].id, timeline[1].id, env.classify(timeline[0], timeline[1]))] + Links(env, timeline[1..])
  }

  function Relations(env: Env, group: seq<Entry>): seq<Relation> {
    Links(env, Timeline(group))
  }

  /** More important first; then the later one; then the greater identifier. */
  predicate Outranks(x: Entry, y: Entry) {
    x.importance > y.importance
    || (x.importance == y.importance
        && (x.createdAt > y.createdAt || (x.createdAt == y.createdAt && StrLess(y.id, x.id))))
  }

  /** `max(...)`: the first entry that no other outranks. */
  function Representative(group: seq<Entry>): (e: Entry)
    requires group != []
    ensures e in group
  {
    if |group| == 1 then group[0]
    else
      var best := Representative(group[..|group| - 1]);
      var last := group[|group| - 1];
      if Outranks(last, best) then last else best
  }

  /** `max(...)` over the importances. */
  function TopImportance(group: seq<Entry>): real
    requires group != []
  {
    if |group| == 1 then group[0].importance
    else
      var top := TopImportance(group[..|group| - 1]);
      var last := group[|group| - 1].importance;
      if last > top then last else top
  }

  /** The importance shown is that of the representative. */
  lemma {:induction false} TopIsRepresentatives(group: seq<Entry>)
    requires group != []
    ensures TopImportance(group) == Representative(group).importance
    ensures forall e | e in group :: e.importance <= TopImportance(group)
  {
    var n := |group| - 1;
    if n > 0 {
      TopIsRepresentatives(group[..n]);
      assert group == group[..n] + [group[n]];
    }
  }

  predicate HasKind(rs: seq<Relation>, kind: RelationType) {
    exists r :: r in rs && r.kind == kind
  }

  function StatusOf(rs: seq<Relation>, size: nat): Status {
    if HasKind(rs, Contradict) then NeedsReview
    else if HasKind(rs, Duplicate) then Merged
    else if size > 1 then Stable
    else Single
  }

  /** A memory is `single` exactly if it rests on one entry, and needs review exactly if two successive entries
      contradict each other. */
  lemma StatusTells(env: Env, group: seq<Entry>)
    requires group != []
    ensures var status := StatusOf(Relations(env, group), |group|);
            var t := Timeline(group);
            && (status == Single <==> |group| == 1)
            && (status == NeedsReview <==> exists i :: 0 <= i < |t| - 1 && env.classify(t[i], t[i + 1]) == Contradict)
  {
    var t := Timeline(group);
    var rs := Links(env, t);
    assert |t| == |group|;
    assert forall i | 0 <= i < |rs| :: rs[i] in rs && rs[i].kind == env.classify(t[i], t[i + 1]);
    if HasKind(rs, Contradict) {
      var r :| r in rs && r.kind == Contradict;
      var i :| 0 <= i < |rs| && rs[i] == r;
      assert env.classify(t[i], t[i + 1]) == Contradict;
    }
    if |group| == 1 {
      assert rs == [];
    }
  }

  function IdOf(e: Entry): string {
    e.id
  }

  function CanonicalOf(env: Env, group: seq<Entry>): Canonical
    requires group != []
  {
    var seen := Sort(group, EarlierSeen);
    Canonical(Representative(group), Mapped(IdOf, seen), |group|, set e | e in group :: e.documentId,
              env.round4(TopImportance(group)), StatusOf(Relations(env, group), |group|), seen[0].createdAt,
              seen[|seen| - 1].createdAt)
  }

  // ----- the view

  function AllRelations(env: Env, entries: seq<Entry>, ks: seq<Key>): seq<Relation> {
    if ks == [] then []
    else AllRelations(env, entries, ks[..|ks| - 1]) + Relations(env, Group(env, entries, ks[|ks| - 1]))
  }

  function AllCanonicals(env: Env, entries: seq<Entry>, ks: seq<Key>): (r: seq<Canonical>)
    requires forall i | 0 <= i < |ks| :: Group(env, entries, ks[i]) != []
    ensures |r| == |ks|
  {
    if ks == [] then []
    else AllCanonicals(env, entries, ks[..|ks| - 1]) + [CanonicalOf(env, Group(env, entries, ks[|ks| - 1]))]
  }

  /** The order of presentation. */
  predicate ShownBefore(x: Canonical, y: Canonical) {
    if (x.status == NeedsReview) != (y.status == NeedsReview) then x.status == NeedsReview
    else if x.evidenceCount != y.evidenceCount then x.evidenceCount > y.evidenceCount
    else if x.importance != y.importance then x.importance > y.importance
    else StrLess(x.representative.name, y.representative.name)
  }

  lemma GroupsInhabited(env: Env, entries: seq<Entry>)
    ensures forall i | 0 <= i < |Keys(env, entries)| :: Group(env, entries, Keys(env, entries)[i]) != []
  {
    var ks := Keys(env, entries);
    forall i | 0 <= i < |ks| ensures Group(env, entries, ks[i]) != [] {
      var k := ks[i];
      assert k in ks;
      var e :| e in entries && Eligible(env, e) && KeyOf(env, e) == k;
      assert e in Group(env, entries, k);
    }
  }

  datatype View = View(rawCount: nat, relations: seq<Relation>, canonicals: seq<Canonical>)

  /** `build_memory_governance_view`. */
  function ViewOf(env: Env, entries: seq<Entry>): View {
    GroupsInhabited(env, entries);
    var ks := Keys(env, entries);
    View(|entries|, AllRelations(env, entries, ks), Sort(AllCanonicals(env, entries, ks), ShownBefore))
  }

  ghost predicate Grouped(env: Env, entries: seq<Entry>, keys: seq<Key>, grouped: map<Key, seq<Entry>>) {
    && keys == Keys(env, entries) && grouped.Keys == Elems(keys)
    && forall k | k in grouped :: grouped[k] == Group(env, entries, k)
  }

  /** The grouping loop: a dictionary from key to the entries with it, and its keys in order of insertion. */
  method GroupEntries(env: Env, entries: seq<Entry>) returns (keys: seq<Key>, grouped: map<Key, seq<Entry>>)
    ensures Grouped(env, entries, keys, grouped)
  {
    keys, grouped := [], map[];
    for i := 0 to |entries|
      invariant Grouped(env, entries[..i], keys, grouped)
    {
      TakeOneMore(entries, i);
      keys, grouped := GroupEntry(env, entries[..i], entries[i], keys, grouped);
    }
    assert entries[..|entries|] == entries;
  }

  method GroupEntry(env: Env, ghost front: seq<Entry>, e: Entry, keys: seq<Key>, grouped: map<Key, seq<Entry>>)
    returns (ks: seq<Key>, groups: map<Key, seq<Entry>>)
    requires Grouped(env, front, keys, grouped)
    ensures Grouped(env, front + [e], ks, groups)
  {
    hide Group;
    ks, groups := keys, grouped;
    var k := KeyOf(env, e);
    GroupSteps(env, front, e);
    assert (front + [e])[..|front|] == front;
    if k.0 != "" && k.1 != "" {
      NewGroupEmpty(env, front, k);
      if k !in groups {
        ks := ks + [k];
        groups := groups[k := []];
      }
      groups := groups[k := groups[k] + [e]];
    }
  }

  lemma GroupSteps(env: Env, front: seq<Entry>, e: Entry)
    ensures forall k :: Group(env, front + [e], k)
                        == Group(env, front, k) + if Eligible(env, e) && KeyOf(env, e) == k then [e] else []
  {
    forall k
      ensures Group(env, front + [e], k)
              == Group(env, front, k) + if Eligible(env, e) && KeyOf(env, e) == k then [e] else []
    {
      FilterAppend(WithKey(env, k), front, [e]);
      assert [e][1..] == [];
    }
  }

  lemma NewGroupEmpty(env: Env, entries: seq<Entry>, k: Key)
    ensures k !in Keys(env, entries) ==> Group(env, entries, k) == []
  {
    var g := Group(env, entries, k);
    if g != [] {
      assert g[0] in g;
    }
  }

  /** The relation loop of one group: each entry after the first is related to the one before it. */
  method RelateGroup(env: Env, group: seq<Entry>) returns (relations: seq<Relation>)
    ensures relations == Relations(env, group)
  {
    if |group| < 2 {
      return [];
    }
    var ordered := Timeline(group);
    relations := [];
    for index := 1 to |ordered|
      invariant relations == Links(env, ordered)[..index - 1]
    {
      var source, target := ordered[index - 1], ordered[index];
      relations := relations + [Relation(source.id, target.id, env.classify(source, target))];
    }
  }

  method BuildView(env: Env, entries: seq<Entry>) returns (view: View)
    ensures view == ViewOf(env, entries)
  {
    hide Group, Relations, CanonicalOf, Keys;
    var keys, grouped := GroupEntries(env, entries);
    GroupsInhabited(env, entries);
    var canonicals: seq<Canonical> := [];
    var relations: seq<Relation> := [];
    for i := 0 to |keys|
      invariant relations == AllRelations(env, entries, keys[..i])
      invariant canonicals == AllCanonicals(env, entries, keys[..i])
    {
      var k := keys[i];
      assert k in Elems(keys);
      assert keys[..i + 1][..i] == keys[..i];
      var groupRelations := RelateGroup(env, grouped[k]);
      relations := relations + groupRelations;
      canonicals := canonicals + [CanonicalOf(env, grouped[k])];
    }
    assert keys[..|keys|] == keys;
    view := View(|entries|, relations, Sort(canonicals, ShownBefore));
  }

  // ----- the view partitions the eligible entries

  /** All entries of the groups with keys `ks`. */
  function Gathered(env: Env, entries: seq<Entry>, ks: seq<Key>): multiset<Entry> {
    if ks == [] then multiset{}
    else Gathered(env, entries, ks[..|ks| - 1]) + multiset(Group(env, entries, ks[|ks| - 1]))
  }

  lemma {:induction false} GatheredStep(env: Env, front: seq<Entry>, e: Entry, ks: seq<Key>)
    requires Distinct(ks)
    ensures Gathered(env, front + [e], ks)
            == Gathered(env, front, ks) + if Eligible(env, e) && KeyOf(env, e) in ks then multiset{e} else multiset{}
  {
    if ks != [] {
      var n := |ks| - 1;
      assert ks == ks[..n] + [ks[n]];
      GatheredStep(env, front, e, ks[..n]);
      GroupSteps(env, front, e);
    }
  }

  /** Every eligible entry is evidence in exactly one group, the group of its key, and nothing else is. */
  lemma {:induction false} GroupsPartition(env: Env, entries: seq<Entry>)
    ensures Gathered(env, entries, Keys(env, entries)) == multiset(Filter(Eligibles(env), entries))
  {
    if entries != [] {
      var n := |entries| - 1;
      var front, e := entries[..n], entries[n];
      assert entries == front + [e];
      GroupsPartition(env, front);
      FilterAppend(Eligibles(env), front, [e]);
      assert [e][1..] == [];
      var ks := Keys(env, front);
      GatheredStep(env, front, e, ks);
      if Eligible(env, e) && KeyOf(env, e) !in ks {
        var k := KeyOf(env, e);
        assert (ks + [k])[..|ks|] == ks;
        NewGroupEmpty(env, front, k);
        GroupSteps(env, front, e);
        assert Group(env, entries, k) == [e];
      }
    }
  }

  /** Each canonical memory lists exactly the identifiers of its group. */
  lemma EvidenceIsGroup(env: Env, group: seq<Entry>)
    requires group != []
    ensures multiset(CanonicalOf(env, group).entryIds) == multiset(Mapped(IdOf, group))
    ensures CanonicalOf(env, group).evidenceCount == |group|
  {
    MappedMultiset(IdOf, Sort(group, EarlierSeen), group);
  }

  /** The identifiers of evidence of several canonical memories together. */
  function EvidenceIds(cs: seq<Canonical>): multiset<string> {
    if cs == [] then multiset{} else multiset(cs[0].entryIds) + EvidenceIds(cs[1..])
  }

  lemma {:induction false} EvidenceAppend(a: seq<Canonical>, b: seq<Canonical>)
    ensures EvidenceIds(a + b) == EvidenceIds(a) + EvidenceIds(b)
  {
    if a == [] {
      assert a + b == b;
    } else {
      assert (a + b)[1..] == a[1..] + b;
      EvidenceAppend(a[1..], b);
    }
  }

  lemma {:induction false} EvidenceInserted(c: Canonical, cs: seq<Canonical>)
    ensures EvidenceIds(Insert(c, cs, ShownBefore)) == EvidenceIds(cs) + multiset(c.entryIds)
  {
    hide ShownBefore;
    if cs == [] {
      assert [c][1..] == [];
    } else if !ShownBefore(cs[0], c) {
      assert ([c] + cs)[1..] == cs;
    } else {
      var rest := Insert(c, cs[1..], ShownBefore);
      EvidenceInserted(c, cs[1..]);
      assert ([cs[0]] + rest)[1..] == rest;
    }
  }

  lemma {:induction false} EvidenceSorted(cs: seq<Canonical>)
    ensures EvidenceIds(Sort(cs, ShownBefore)) == EvidenceIds(cs)
  {
    if cs != [] {
      EvidenceSorted(cs[1..]);
      EvidenceInserted(cs[0], Sort(cs[1..], ShownBefore));
    }
  }

  /** The groups with keys `ks`, one after the other. */
  function Lined(env: Env, entries: seq<Entry>, ks: seq<Key>): (r: seq<Entry>)
    ensures multiset(r) == Gathered(env, entries, ks)
  {
    if ks == [] then [] else Lined(env, entries, ks[..|ks| - 1]) + Group(env, entries, ks[|ks| - 1])
  }

  lemma {:induction false} EvidenceOfGroups(env: Env, entries: seq<Entry>, ks: seq<Key>)
    requires forall i | 0 <= i < |ks| :: Group(env, entries, ks[i]) != []
    ensures EvidenceIds(AllCanonicals(env, entries, ks)) == multiset(Mapped(IdOf, Lined(env, entries, ks)))
    decreases |ks|
  {
    hide Group, CanonicalOf;
    if ks != [] {
      var n := |ks| - 1;
      var group := Group(env, entries, ks[n]);
      EvidenceOfGroups(env, entries, ks[..n]);
      EvidenceAppend(AllCanonicals(env, entries, ks[..n]), [CanonicalOf(env, group)]);
      assert [CanonicalOf(env, group)][1..] == [];
      EvidenceIsGroup(env, group);
      MappedAppend(IdOf, Lined(env, entries, ks[..n]), group);
    }
  }

  /** All canonical memories of the view together list exactly the identifiers of the eligible entries. */
  lemma EvidenceIsEligible(env: Env, entries: seq<Entry>)
    ensures EvidenceIds(ViewOf(env, entries).canonicals) == multiset(Mapped(IdOf, Filter(Eligibles(env), entries)))
  {
    hide AllCanonicals, AllRelations, Keys, Mapped, Filter;
    GroupsInhabited(env, entries);
    var ks := Keys(env, entries);
    EvidenceSorted(AllCanonicals(env, entries, ks));
    EvidenceOfGroups(env, entries, ks);
    GroupsPartition(env, entries);
    MappedMultiset(IdOf, Lined(env, entries, ks), Filter(Eligibles(env), entries));
  }

  lemma {:induction false} CountsPerGroup(env: Env, entries: seq<Entry>, ks: seq<Key>)
    requires forall i | 0 <= i < |ks| :: Group(env, entries, ks[i]) != []
    ensures |AllRelations(env, entries, ks)| + |ks| == |Gathered(env, entries, ks)|
  {
    if ks != [] {
      CountsPerGroup(env, entries, ks[..|ks| - 1]);
    }
  }

  /** Relations and canonical memories together are as many as the eligible entries. */
  lemma RelationsPlusCanonicals(env: Env, entries: seq<Entry>)
    ensures |ViewOf(env, entries).relations| + |ViewOf(env, entries).canonicals| == |Filter(Eligibles(env), entries)|
  {
    GroupsInhabited(env, entries);
    CountsPerGroup(env, entries, Keys(env, entries));
    GroupsPartition(env, entries);
    var ks := Keys(env, entries);
    assert |AllCanonicals(env, entries, ks)| == |ks|;
    assert |multiset(Filter(Eligibles(env), entries))| == |Filter(Eligibles(env), entries)|;
  }

  // ----- the relations of a group form one chain in time

  ghost predicate UniqueIds(entries: seq<Entry>) {
    forall i, j | 0 <= i < j < |entries| :: entries[i].id != entries[j].id
  }

  lemma EarlierOrder(group: seq<Entry>)
    requires UniqueIds(group)
    ensures WeakOrder(Earlier) && StrictTotalOn(Elems(group), Earlier) && Distinct(group)
  {
    forall x, y | Earlier(x, y) ensures !Earlier(y, x) {
      StrTrichotomy(x.id, y.id);
    }
    forall x, y, z | !Earlier(y, x) && !Earlier(z, y) ensures !Earlier(z, x) {
      if !StrLess(y.id, x.id) && !StrLess(z.id, y.id) {
        StrNotLessTransitive(x.id, y.id, z.id);
      }
    }
    assert WeakOrder(Earlier);
    WeakOrderTransitive(Earlier);
    forall x, y | x in Elems(group) && y in Elems(group) ensures x == y || Earlier(x, y) || Earlier(y, x) {
      StrTrichotomy(x.id, y.id);
      var i :| 0 <= i < |group| && group[i] == x;
      var j :| 0 <= j < |group| && group[j] == y;
    }
  }

  lemma TimelineIncreases(group: seq<Entry>)
    requires UniqueIds(group)
    ensures Increasing(Timeline(group), Earlier)
  {
    EarlierOrder(group);
    SortEnumerates(group, Earlier);
  }

  /** The timeline holds the whole group in strictly increasing (time, identifier) order, and relation `i` leads from
      its `i`-th entry to the next: one chain through all entries. */
  lemma RelationsAreOneChain(env: Env, group: seq<Entry>)
    requires UniqueIds(group) && group != []
    ensures var t := Timeline(group);
            && multiset(t) == multiset(group) && InTime(t)
            && (forall i, j | 0 <= i < j < |t| && t[i].createdAt == t[j].createdAt :: StrLess(t[i].id, t[j].id))
            && |Relations(env, group)| == |group| - 1
            && forall i | 0 <= i < |group| - 1 ::
                 Relations(env, group)[i].source == t[i].id && Relations(env, group)[i].target == t[i + 1].id
  {
    TimelineIncreases(group);
    var t := Timeline(group);
    assert forall i, j | 0 <= i < j < |t| :: Earlier(t[i], t[j]);
    hide Earlier, Increasing;
    var r := Links(env, t);
    forall i | 0 <= i < |group| - 1 ensures r[i].source == t[i].id && r[i].target == t[i + 1].id {
      assert r[i] == Relation(t[i].id, t[i + 1].id, env.classify(t[i], t[i + 1]));
    }
  }

  ghost predicate InTime(s: seq<Entry>) {
    forall i, j | 0 <= i < j < |s| :: s[i].createdAt <= s[j].createdAt
  }

  // ----- what a canonical memory says

  /** Entry `e` represents the group: no entry is more important, of the most important ones none is later, and of
      those none has the greater identifier. */
  ghost predicate Represents(e: Entry, group: seq<Entry>) {
    && e in group
    && forall x | x in group ::
         && x.importance <= e.importance
         && (x.importance == e.importance ==> x.createdAt <= e.createdAt)
         && (x.importance == e.importance && x.createdAt == e.createdAt ==> !StrLess(e.id, x.id))
  }

  ghost predicate Successive(t: seq<Entry>, classify: (Entry, Entry) -> RelationType, kind: RelationType) {
    exists i :: 0 <= i < |t| - 1 && classify(t[i], t[i + 1]) == kind
  }

  /** The status by the relations between successive entries of the timeline: a contradiction needs review, otherwise a
      duplicate is merged, and without both a memory is stable if it rests on several entries. */
  ghost predicate StatusSays(env: Env, t: seq<Entry>, status: Status) {
    var contradicted, repeated := Successive(t, env.classify, Contradict), Successive(t, env.classify, Duplicate);
    && (status == NeedsReview <==> contradicted)
    && (status == Merged <==> !contradicted && repeated)
    && (status == Stable <==> !contradicted && !repeated && |t| > 1)
    && (status == Single <==> |t| == 1)
  }

  function SeenAt(time: int): Entry -> bool {
    (e: Entry) => e.createdAt == time
  }

  /** The group in order of time; entries of one time stay in the order in which they came. */
  ghost predicate SeenInOrder(seen: seq<Entry>, group: seq<Entry>) {
    && multiset(seen) == multiset(group) && InTime(seen)
    && forall time :: Filter(SeenAt(time), seen) == Filter(SeenAt(time), group)
  }

  /** What a canonical memory says of its group. */
  ghost predicate CanonicalTells(env: Env, group: seq<Entry>, c: Canonical) {
    && Represents(c.representative, group) && c.importance == env.round4(c.representative.importance)
    && c.evidenceCount == |group| && (forall d :: d in c.documents <==> exists e :: e in group && e.documentId == d)
    && (exists seen :: SeenInOrder(seen, group) && ListsSeen(c, seen))
    && (exists t :: IsTimeline(t, group) && StatusSays(env, t, c.status))
  }

  predicate ListsSeen(c: Canonical, seen: seq<Entry>) {
    && seen != [] && c.entryIds == Mapped(IdOf, seen)
    && c.firstSeen == seen[0].createdAt && c.lastSeen == seen[|seen| - 1].createdAt
  }

  /** The group in order of time and identifier. */
  ghost predicate IsTimeline(t: seq<Entry>, group: seq<Entry>) {
    && multiset(t) == multiset(group) && InTime(t)
    && forall i, j | 0 <= i < j < |t| && t[i].createdAt == t[j].createdAt :: !StrLess(t[j].id, t[i].id)
  }

  lemma RepresentsIff(e: Entry, group: seq<Entry>)
    ensures Represents(e, group) <==> e in group && forall x | x in group :: !Outranks(x, e)
  {
  }

  lemma NoneOutranks(x: Entry, y: Entry, z: Entry)
    ensures !Outranks(x, y) && !Outranks(y, z) ==> !Outranks(x, z)
    ensures Outranks(y, z) ==> !Outranks(z, y)
    ensures !Outranks(x, x)
  {
    StrTrichotomy(y.id, z.id);
    StrTrichotomy(x.id, x.id);
    if !StrLess(y.id, x.id) && !StrLess(z.id, y.id) {
      StrNotLessTransitive(x.id, y.id, z.id);
    }
  }

  lemma {:induction false} RepresentativeRepresents(group: seq<Entry>)
    requires group != []
    ensures Represents(Representative(group), group)
  {
    hide Represents, Outranks;
    var n := |group| - 1;
    var e := Representative(group);
    if n == 0 {
      NoneOutranks(e, e, e);
    } else {
      var front, last := group[..n], group[n];
      assert group == front + [last];
      RepresentativeRepresents(front);
      var best := Representative(front);
      RepresentsIff(best, front);
      forall x | x in group ensures !Outranks(x, e) {
        NoneOutranks(x, best, last);
        NoneOutranks(x, last, best);
        NoneOutranks(last, x, x);
      }
    }
    RepresentsIff(e, group);
  }

  lemma StatusIsSaid(env: Env, group: seq<Entry>)
    requires group != []
    ensures StatusSays(env, Timeline(group), StatusOf(Relations(env, group), |group|))
  {
    var t := Timeline(group);
    var rs := Links(env, t);
    assert |t| == |group|;
    KindsAreSuccessive(env, t, Contradict);
    KindsAreSuccessive(env, t, Duplicate);
    hide Links, Timeline, HasKind;
    assert |t| == 1 ==> !Successive(t, env.classify, Contradict) && !Successive(t, env.classify, Duplicate);
  }

  lemma KindsAreSuccessive(env: Env, t: seq<Entry>, kind: RelationType)
    ensures HasKind(Links(env, t), kind) <==> Successive(t, env.classify, kind)
  {
    var rs := Links(env, t);
    if HasKind(rs, kind) {
      var r :| r in rs && r.kind == kind;
      var i :| 0 <= i < |rs| && rs[i] == r;
      assert env.classify(t[i], t[i + 1]) == kind;
    }
    if i :| 0 <= i < |t| - 1 && env.classify(t[i], t[i + 1]) == kind {
      assert rs[i] in rs && rs[i].kind == kind;
    }
  }

  lemma SeenOrder()
    ensures WeakOrder(EarlierSeen)
  {
  }

  lemma SeenIsInOrder(group: seq<Entry>)
    ensures SeenInOrder(Sort(group, EarlierSeen), group)
  {
    SeenOrder();
    SortOrders(group, EarlierSeen);
    forall time ensures Filter(SeenAt(time), Sort(group, EarlierSeen)) == Filter(SeenAt(time), group) {
      SortFilter(SeenAt(time), group, EarlierSeen);
      assert forall e | e in Filter(SeenAt(time), group) :: e.createdAt == time;
      SameTimeStays(Filter(SeenAt(time), group));
    }
  }

  lemma {:induction false} SameTimeStays(s: seq<Entry>)
    requires forall x, y | x in s && y in s :: x.createdAt == y.createdAt
    ensures Sort(s, EarlierSeen) == s
  {
    if s != [] {
      assert s == [s[0]] + s[1..] && s[0] in s;
      assert forall x | x in s[1..] :: x in s;
      SameTimeStays(s[1..]);
      InsertInFront(s[0], s[1..], EarlierSeen);
    }
  }

  lemma TimelineInTime(group: seq<Entry>)
    ensures IsTimeline(Timeline(group), group)
  {
    TimeOrder();
    SortOrders(group, Earlier);
  }

  lemma TimeOrder()
    ensures WeakOrder(Earlier)
  {
    forall x, y | Earlier(x, y) ensures !Earlier(y, x) {
      StrTrichotomy(x.id, y.id);
    }
    forall x, y, z | !Earlier(y, x) && !Earlier(z, y) ensures !Earlier(z, x) {
      if !StrLess(y.id, x.id) && !StrLess(z.id, y.id) {
        StrNotLessTransitive(x.id, y.id, z.id);
      }
    }
  }

  /** Every canonical memory tells its group. */
  lemma CanonicalIsTold(env: Env, group: seq<Entry>)
    requires group != []
    ensures CanonicalTells(env, group, CanonicalOf(env, group))
  {
    hide Represents, StatusSays, SeenInOrder, Representative, TopImportance, Timeline, Relations, StatusOf, IsTimeline;
    RepresentativeRepresents(group);
    TopIsRepresentatives(group);
    StatusIsSaid(env, group);
    SeenIsInOrder(group);
    TimelineInTime(group);
    var seen := Sort(group, EarlierSeen);
    assert |seen| == |group|;
  }

  /** `x` may stand before `y`: first what needs review, then the more evidence, the greater importance, the smaller
      name. */
  predicate MayStandBefore(x: Canonical, y: Canonical) {
    var same := (x.status == NeedsReview) == (y.status == NeedsReview);
    && (y.status == NeedsReview ==> x.status == NeedsReview)
    && (same ==> x.evidenceCount >= y.evidenceCount)
    && (same && x.evidenceCount == y.evidenceCount ==> x.importance >= y.importance)
    && (same && x.evidenceCount == y.evidenceCount && x.importance == y.importance ==>
          !StrLess(y.representative.name, x.representative.name))
  }

  lemma ShownOrder()
    ensures WeakOrder(ShownBefore)
  {
    forall x, y | ShownBefore(x, y) ensures !ShownBefore(y, x) {
      StrTrichotomy(x.representative.name, y.representative.name);
    }
    forall x, y, z | !ShownBefore(y, x) && !ShownBefore(z, y) ensures !ShownBefore(z, x) {
      var a, b, c := x.representative.name, y.representative.name, z.representative.name;
      if !StrLess(b, a) && !StrLess(c, b) {
        StrNotLessTransitive(a, b, c);
      }
    }
  }

  /** The entries with one key, and the key is of words that say something. */
  ghost predicate IsGroup(env: Env, entries: seq<Entry>, group: seq<Entry>) {
    group != [] && exists kind, name :: HasKey(env, entries, group, kind, name)
  }

  ghost predicate HasKey(env: Env, entries: seq<Entry>, group: seq<Entry>, kind: string, name: string) {
    && kind != "" && name != "" && group == Group(env, entries, (kind, name))
    && forall e :: e in group <==> e in entries && env.normalize(e.kind) == kind && env.normalize(e.name) == name
  }

  /** The view shows in order one canonical memory for each group, which tells it. */
  lemma ViewTells(env: Env, entries: seq<Entry>)
    ensures var view := ViewOf(env, entries);
            && view.rawCount == |entries|
            && (forall i, j | 0 <= i < j < |view.canonicals| :: MayStandBefore(view.canonicals[i], view.canonicals[j]))
            && (forall c | c in view.canonicals ::
                  exists group :: IsGroup(env, entries, group) && CanonicalTells(env, group, c))
            && (forall group | IsGroup(env, entries, group) ::
                  exists c :: c in view.canonicals && CanonicalTells(env, group, c))
            && |view.canonicals| == |Keys(env, entries)|
  {
    hide CanonicalTells, IsGroup, Group, Sort, ShownBefore, MayStandBefore, CanonicalOf;
    GroupsInhabited(env, entries);
    var ks := Keys(env, entries);
    var all := AllCanonicals(env, entries, ks);
    var shown := Sort(all, ShownBefore);
    ShownOrder();
    SortOrders(all, ShownBefore);
    SameMembers(shown, all);
    assert forall c :: c in shown <==> c in Elems(all);
    forall x, y | !ShownBefore(y, x) ensures MayStandBefore(x, y) {
      NotShownBefore(x, y);
    }
    forall c | c in shown ensures exists group :: IsGroup(env, entries, group) && CanonicalTells(env, group, c) {
      var i := CanonicalAt(env, entries, ks, c);
      KeyIsGroup(env, entries, ks[i]);
      CanonicalIsTold(env, Group(env, entries, ks[i]));
    }
    forall group | IsGroup(env, entries, group)
      ensures exists c :: c in shown && CanonicalTells(env, group, c)
    {
      var i := GroupHasKey(env, entries, group);
      CanonicalOfKey(env, entries, ks, i);
      CanonicalIsTold(env, group);
      assert CanonicalOf(env, group) in Elems(all);
    }
  }

  lemma NotShownBefore(x: Canonical, y: Canonical)
    requires !ShownBefore(y, x)
    ensures MayStandBefore(x, y)
  {
  }

  lemma {:induction false} CanonicalAt(env: Env, entries: seq<Entry>, ks: seq<Key>, c: Canonical) returns (i: nat)
    requires forall i | 0 <= i < |ks| :: Group(env, entries, ks[i]) != []
    requires c in AllCanonicals(env, entries, ks)
    ensures i < |ks| && c == CanonicalOf(env, Group(env, entries, ks[i]))
    decreases |ks|
  {
    hide Group, CanonicalOf;
    i := |ks| - 1;
    if c in AllCanonicals(env, entries, ks[..i]) {
      i := CanonicalAt(env, entries, ks[..i], c);
    }
  }

  lemma {:induction false} CanonicalOfKey(env: Env, entries: seq<Entry>, ks: seq<Key>, i: nat)
    requires (forall i | 0 <= i < |ks| :: Group(env, entries, ks[i]) != []) && i < |ks|
    ensures CanonicalOf(env, Group(env, entries, ks[i])) in AllCanonicals(env, entries, ks)
    decreases |ks|
  {
    hide Group, CanonicalOf;
    if i < |ks| - 1 {
      CanonicalOfKey(env, entries, ks[..|ks| - 1], i);
    }
  }

  lemma KeyIsGroup(env: Env, entries: seq<Entry>, k: Key)
    requires k in Keys(env, entries)
    ensures IsGroup(env, entries, Group(env, entries, k))
  {
    var e :| e in entries && Eligible(env, e) && KeyOf(env, e) == k;
    assert e in Group(env, entries, k);
    assert k == (k.0, k.1);
    assert HasKey(env, entries, Group(env, entries, k), k.0, k.1);
  }

  lemma GroupHasKey(env: Env, entries: seq<Entry>, group: seq<Entry>) returns (i: nat)
    requires IsGroup(env, entries, group)
    ensures i < |Keys(env, entries)| && group == Group(env, entries, Keys(env, entries)[i])
  {
    var kind, name :| HasKey(env, entries, group, kind, name);
    assert group[0] in group;
    assert (kind, name) in Keys(env, entries);
    i :| 0 <= i < |Keys(env, entries)| && Keys(env, entries)[i] == (kind, name);
  }

  // ----- the order of the input does not matter

  lemma {:induction false} RepresentativeOutranksAll(group: seq<Entry>)
    requires group != [] && UniqueIds(group)
    ensures forall e | e in group && e != Representative(group) :: Outranks(Representative(group), e)
  {
    var n := |group| - 1;
    if n > 0 {
      var front, last := group[..n], group[n];
      assert group == front + [last];
      RepresentativeOutranksAll(front);
      var best := Representative(front);
      forall e | e in group && e != Representative(group) ensures Outranks(Representative(group), e) {
        StrTrichotomy(best.id, last.id);
        var i :| 0 <= i < n && front[i] == best;
        assert group[i].id != last.id;
        if e != best && e != last {
          OutranksTransitive(last, best, e);
        }
      }
    }
  }

  lemma OutranksTransitive(x: Entry, y: Entry, z: Entry)
    ensures Outranks(x, y) && Outranks(y, z) ==> Outranks(x, z)
    ensures !(Outranks(x, y) && Outranks(y, x))
  {
    StrTrichotomy(x.id, y.id);
    if StrLess(z.id, y.id) && StrLess(y.id, x.id) {
      StrTransitive(z.id, y.id, x.id);
    }
  }

  lemma SameGroup(env: Env, a: seq<Entry>, b: seq<Entry>, k: Key)
    requires multiset(a) == multiset(b) && UniqueIds(a)
    ensures multiset(Group(env, a, k)) == multiset(Group(env, b, k))
    ensures UniqueIds(Group(env, a, k)) && UniqueIds(Group(env, b, k))
  {
    FilterMultiset(WithKey(env, k), a);
    FilterMultiset(WithKey(env, k), b);
    FilterUnique(WithKey(env, k), a);
    SameUnique(a, b);
    FilterUnique(WithKey(env, k), b);
    forall e ensures multiset(Group(env, a, k))[e] == multiset(Group(env, b, k))[e] {
    }
  }

  lemma {:induction false} FilterMultiset(p: Entry -> bool, s: seq<Entry>)
    ensures forall e :: multiset(Filter(p, s))[e] == if p(e) then multiset(s)[e] else 0
  {
    if s != [] {
      assert s == [s[0]] + s[1..];
      FilterMultiset(p, s[1..]);
    }
  }

  lemma {:induction false} FilterUnique(p: Entry -> bool, s: seq<Entry>)
    requires UniqueIds(s)
    ensures UniqueIds(Filter(p, s))
  {
    if s != [] {
      FilterUnique(p, s[1..]);
      forall x | x in Filter(p, s[1..]) ensures x.id != s[0].id {
        assert x in s[1..];
      }
    }
  }

  lemma SameUnique(a: seq<Entry>, b: seq<Entry>)
    requires multiset(a) == multiset(b) && UniqueIds(a)
    ensures UniqueIds(b)
  {
    MappedMultiset(IdOf, a, b);
    DistinctMultiset(Mapped(IdOf, a));
    MultisetDistinct(Mapped(IdOf, b));
    assert forall i | 0 <= i < |b| :: Mapped(IdOf, b)[i] == b[i].id;
  }

  /** With unique identifiers the keys, the relations of every group and its representative do not depend on the order
      in which the entries arrive. */
  lemma InputOrderIsIrrelevant(env: Env, a: seq<Entry>, b: seq<Entry>, k: Key)
    requires multiset(a) == multiset(b) && UniqueIds(a)
    ensures k in Keys(env, a) <==> k in Keys(env, b)
    ensures Relations(env, Group(env, a, k)) == Relations(env, Group(env, b, k))
    ensures (Group(env, a, k) == []) == (Group(env, b, k) == [])
    ensures Group(env, a, k) != [] ==> Representative(Group(env, a, k)) == Representative(Group(env, b, k))
  {
    SameMembers(a, b);
    forall e ensures e in a <==> e in b {
      assert e in Elems(a) <==> e in Elems(b);
    }
    SameGroup(env, a, b, k);
    var g, h := Group(env, a, k), Group(env, b, k);
    SameTimeline(g, h);
    SameMembers(g, h);
    if g != [] {
      SameRepresentative(g, h);
    }
  }

  lemma SameTimeline(g: seq<Entry>, h: seq<Entry>)
    requires multiset(g) == multiset(h) && UniqueIds(g) && UniqueIds(h)
    ensures Timeline(g) == Timeline(h)
  {
    SameMembers(g, h);
    EarlierOrder(g);
    EarlierOrder(h);
    SortEnumerates(g, Earlier);
    SortEnumerates(h, Earlier);
  }

  lemma SameRepresentative(g: seq<Entry>, h: seq<Entry>)
    requires multiset(g) == multiset(h) && UniqueIds(g) && UniqueIds(h) && g != [] && h != []
    ensures Representative(g) == Representative(h)
  {
    var x, y := Representative(g), Representative(h);
    RepresentativeOutranksAll(g);
    RepresentativeOutranksAll(h);
    SameMembers(g, h);
    assert x in Elems(h) && y in Elems(g);
    OutranksTransitive(x, y, y);
  }

  lemma {:induction false} RelationsAppend(env: Env, entries: seq<Entry>, a: seq<Key>, b: seq<Key>)
    ensures AllRelations(env, entries, a + b) == AllRelations(env, entries, a) + AllRelations(env, entries, b)
    decreases |b|
  {
    hide Relations, Group;
    if b == [] {
      assert a + b == a;
    } else {
      var c, k := b[..|b| - 1], b[|b| - 1];
      RelationsAppend(env, entries, a, c);
      assert (a + b)[..|a + b| - 1] == a + c && (a + b)[|a + b| - 1] == k;
    }
  }

  lemma RelationsWithout(env: Env, entries: seq<Entry>, ks: seq<Key>, i: nat)
    requires i < |ks|
    ensures multiset(AllRelations(env, entries, ks))
            == multiset(AllRelations(env, entries, ks[..i] + ks[i + 1..]))
               + multiset(Relations(env, Group(env, entries, ks[i])))
  {
    hide Relations, Group;
    var a, k, b := ks[..i], ks[i], ks[i + 1..];
    assert ks == (a + [k]) + b;
    RelationsAppend(env, entries, a + [k], b);
    RelationsAppend(env, entries, a, b);
    assert AllRelations(env, entries, a + [k])
           == AllRelations(env, entries, a) + Relations(env, Group(env, entries, k)) by {
      assert (a + [k])[..i] == a;
    }
  }

  /** Taking the last key of one listing out of another listing of the same keys. */
  lemma TakenOut(ks: seq<Key>, ls: seq<Key>) returns (i: nat)
    requires ks != [] && Distinct(ks) && Distinct(ls) && forall k :: k in ks <==> k in ls
    ensures i < |ls| && ls[i] == ks[|ks| - 1]
    ensures var rest := ls[..i] + ls[i + 1..];
            Distinct(rest) && forall k :: k in ks[..|ks| - 1] <==> k in rest
  {
    var n := |ks| - 1;
    assert ks[n] in ks;
    i :| 0 <= i < |ls| && ls[i] == ks[n];
    var rest := ls[..i] + ls[i + 1..];
    assert ks == ks[..n] + [ks[n]] && ls == ls[..i] + [ls[i]] + ls[i + 1..];
    forall k ensures k in ks[..n] <==> k in rest {
      assert k in ks <==> k in ls;
      assert k in ks <==> k in ks[..n] || k == ks[n];
      assert k in ls <==> k in rest || k == ls[i];
    }
  }

  lemma {:induction false} SameRelations(env: Env, a: seq<Entry>, b: seq<Entry>, ks: seq<Key>, ls: seq<Key>)
    requires Distinct(ks) && Distinct(ls) && forall k :: k in ks <==> k in ls
    requires forall k :: Relations(env, Group(env, a, k)) == Relations(env, Group(env, b, k))
    ensures multiset(AllRelations(env, a, ks)) == multiset(AllRelations(env, b, ls))
    decreases |ks|
  {
    hide Relations, Group;
    assert forall i | 0 <= i < |ls| :: ls[i] in ls;
    if ks != [] {
      var i := TakenOut(ks, ls);
      RelationsWithout(env, b, ls, i);
      SameRelations(env, a, b, ks[..|ks| - 1], ls[..i] + ls[i + 1..]);
    }
  }

  /** The whole set of relations does not depend on the order in which the entries arrive. */
  lemma ViewRelationsOrderIrrelevant(env: Env, a: seq<Entry>, b: seq<Entry>)
    requires multiset(a) == multiset(b) && UniqueIds(a)
    ensures multiset(ViewOf(env, a).relations) == multiset(ViewOf(env, b).relations)
  {
    hide Relations, Group, Keys;
    forall k ensures k in Keys(env, a) <==> k in Keys(env, b)
      ensures Relations(env, Group(env, a, k)) == Relations(env, Group(env, b, k))
    {
      InputOrderIsIrrelevant(env, a, b, k);
    }
    SameRelations(env, a, b, Keys(env, a), Keys(env, b));
  }
}
