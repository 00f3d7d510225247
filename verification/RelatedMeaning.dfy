/** What a related-document edge says, in terms of the memory entries it was computed from: which signatures two
    documents share, how important they are, and how the scores follow from that. */
module RelatedMeaning {
  import opened Sorting
  import opened RelatedDocuments
  import opened RelatedIndex

  /** The signatures that document `d` mentions. */
  ghost function Mentioned(env: Env, entries: seq<Entry>, d: string): set<Signature> {
    set e | e in entries && e.documentId == d && env.normalize(e.name) != ""
      :: (env.normalize(e.name), env.normalize(e.kind))
  }

  ghost function SharedBy(env: Env, entries: seq<Entry>, k: Pair): set<Signature> {
    Mentioned(env, entries, k.0) * Mentioned(env, entries, k.1)
  }

  /** Entry `e` mentions `s` in one of the two documents. */
  predicate MentionedIn(env: Env, e: Entry, k: Pair, s: Signature) {
    (e.documentId == k.0 || e.documentId == k.1) && env.normalize(e.name) == s.0 != "" && env.normalize(e.kind) == s.1
  }

  /** `m` is the importance of the most important mention of `s` in the two documents. */
  ghost predicate IsPeak(env: Env, entries: seq<Entry>, k: Pair, s: Signature, m: real) {
    && (exists e :: e in entries && MentionedIn(env, e, k, s) && e.importance == m)
    && (forall e | e in entries && MentionedIn(env, e, k, s) :: e.importance <= m)
  }

  /** Every shared signature with the importance of its most important mention. */
  ghost predicate ArePeaks(env: Env, entries: seq<Entry>, k: Pair, peaks: map<Signature, real>) {
    peaks.Keys == SharedBy(env, entries, k) && forall s | s in peaks :: IsPeak(env, entries, k, s, peaks[s])
  }

  ghost function Sum(peaks: map<Signature, real>): real {
    if peaks == map[] then 0.0
    else
      var s :| s in peaks;
      Sum(peaks - {s}) + peaks[s]
  }

  lemma {:induction false} SumWithout(peaks: map<Signature, real>, s: Signature)
    requires s in peaks
    ensures Sum(peaks) == Sum(peaks - {s}) + peaks[s]
    decreases |peaks|
  {
    var t :| t in peaks && Sum(peaks) == Sum(peaks - {t}) + peaks[t];
    if t != s {
      SumWithout(peaks - {t}, s);
      SumWithout(peaks - {s}, t);
      assert peaks - {t} - {s} == peaks - {s} - {t};
    }
  }

  /** The score of a pair whose documents mention `left` and `right` signatures and share those of `peaks`, of `types`
      types: a weighted mean of how much of all signatures and of the smaller document they share, how important that
      is, how many types it has, up to three, and how many memories these are, up to five. */
  ghost function PairScore(left: nat, right: nat, peaks: map<Signature, real>, types: nat): real
    requires 1 <= |peaks| <= left && |peaks| <= right
  {
    var n := |peaks| as real;
    0.35 * (n / (left + right - |peaks|) as real)
    + 0.2 * (n / (if left <= right then left else right) as real)
    + 0.25 * (Sum(peaks) / n)
    + 0.1 * (if types >= 3 then 1.0 else types as real / 3.0)
    + 0.1 * (if |peaks| >= 5 then 1.0 else n / 5.0)
  }

  /** The first of the most important mentions of `s` in document `d`. */
  ghost predicate IsLeading(env: Env, entries: seq<Entry>, d: string, s: Signature, i: nat) {
    && i < |entries| && MentionedIn(env, entries[i], (d, d), s)
    && forall j | 0 <= j < |entries| && MentionedIn(env, entries[j], (d, d), s) ::
         if j < i then entries[j].importance < entries[i].importance
         else entries[j].importance <= entries[i].importance
  }

  /** Entry `e` stands for the shared signature `s`: the leading mention in the first document, or the one in the
      second if that is more important. */
  ghost predicate StandsFor(env: Env, entries: seq<Entry>, k: Pair, s: Signature, e: Entry) {
    exists i: nat, j: nat ::
      IsLeading(env, entries, k.0, s, i) && IsLeading(env, entries, k.1, s, j)
      && e == if entries[j].importance > entries[i].importance then entries[j] else entries[i]
  }

  /** `m` is the greatest of the peaks, or 0 if none is greater. */
  ghost predicate IsTop(peaks: map<Signature, real>, m: real) {
    m >= 0.0 && (forall s | s in peaks :: peaks[s] <= m) && (m == 0.0 || exists s :: s in peaks && peaks[s] == m)
  }

  /** What the edge says of importance, and the score. */
  ghost predicate PeaksTell(env: Env, entries: seq<Entry>, k: Pair, x: Edge, peaks: map<Signature, real>) {
    var l, r := |Mentioned(env, entries, k.0)|, |Mentioned(env, entries, k.1)|;
    && ArePeaks(env, entries, k, peaks) && 1 <= |peaks| <= l && |peaks| <= r
    && x.avgImportance == env.round4(Sum(peaks) / |peaks| as real)
    && x.score == env.round4(PairScore(l, r, peaks, |x.sharedTypes|))
    && exists m :: IsTop(peaks, m) && x.maxImportance == env.round4(m)
  }

  /** A type is shown exactly if an entry of that type stands for a shared signature. */
  ghost predicate TypeTells(env: Env, entries: seq<Entry>, k: Pair, x: Edge, t: string) {
    t in x.sharedTypes
    <==> exists s, e :: s in SharedBy(env, entries, k) && StandsFor(env, entries, k, s, e) && e.kind == t
  }

  /** What the edge says of the two documents. */
  ghost predicate EndsTell(docs: map<string, Document>, k: Pair, x: Edge) {
    && k.0 in docs && k.1 in docs && StrLess(k.0, k.1)
    && x.source == "document:" + k.0 && x.target == "document:" + k.1
    && x.sourceName == docs[k.0].fileName && x.targetName == docs[k.1].fileName
    && x.sourceKb == docs[k.0].kb && x.targetKb == docs[k.1].kb && (x.crossKb <==> docs[k.0].kb != docs[k.1].kb)
  }

  /** What the edge says of how much the documents share. */
  ghost predicate CountsTell(env: Env, entries: seq<Entry>, k: Pair, x: Edge) {
    var l, r, n := |Mentioned(env, entries, k.0)|, |Mentioned(env, entries, k.1)|, |SharedBy(env, entries, k)|;
    && 1 <= n <= l && n <= r && x.sharedCount == n
    && x.jaccard == env.round4(n as real / (l + r - n) as real)
    && x.strength == env.round4(n as real / (if l <= r then l else r) as real)
  }

  /** What the edge between the documents of `k` says. */
  ghost predicate EdgeTells(env: Env, docs: map<string, Document>, entries: seq<Entry>, k: Pair, x: Edge) {
    && EndsTell(docs, k, x) && CountsTell(env, entries, k, x)
    && (forall t :: TypeTells(env, entries, k, x, t))
    && exists peaks :: PeaksTell(env, entries, k, x, peaks)
  }

  // ----- from catalogues to entries

  lemma MentionIs(env: Env, e: Entry, d: string, s: Signature)
    ensures Mentions(env, e, d, s) <==> MentionedIn(env, e, (d, d), s)
  {
  }

  lemma CatalogKeys(env: Env, entries: seq<Entry>, d: string)
    ensures CatalogOf(env, entries, d).Keys == Mentioned(env, entries, d)
  {
    forall s ensures s in CatalogOf(env, entries, d) <==> s in Mentioned(env, entries, d) {
      CatalogIsFirstBest(env, entries, d, s);
      assert s == (s.0, s.1);
    }
  }

  lemma CatalogLeads(env: Env, entries: seq<Entry>, d: string, s: Signature) returns (i: nat)
    requires s in CatalogOf(env, entries, d)
    ensures IsLeading(env, entries, d, s, i)
    ensures CatalogOf(env, entries, d)[s] == Payload(entries[i].name, entries[i].kind, entries[i].importance)
  {
    CatalogIsFirstBest(env, entries, d, s);
    hide CatalogOf;
    i :| FirstBest(env, entries, d, s, i) && CatalogOf(env, entries, d)[s] == PayloadOf(entries[i]);
    forall e ensures Mentions(env, e, d, s) <==> MentionedIn(env, e, (d, d), s) {
      MentionIs(env, e, d, s);
    }
  }

  lemma LeadingUnique(env: Env, entries: seq<Entry>, d: string, s: Signature, i: nat, j: nat)
    requires IsLeading(env, entries, d, s, i) && IsLeading(env, entries, d, s, j)
    ensures i == j
  {
  }

  /** The memory that an edge shows for `s` is that of the entry that stands for it. */
  lemma ChosenStands(env: Env, entries: seq<Entry>, k: Pair, s: Signature) returns (e: Entry)
    requires s in Shared(CatalogOf(env, entries, k.0), CatalogOf(env, entries, k.1))
    ensures StandsFor(env, entries, k, s, e)
    ensures var a, b := CatalogOf(env, entries, k.0), CatalogOf(env, entries, k.1);
            Chosen(a[s], b[s]) == Payload(e.name, e.kind, e.importance)
    ensures forall f | StandsFor(env, entries, k, s, f) :: f == e
  {
    hide CatalogOf, MentionedIn;
    var i := CatalogLeads(env, entries, k.0, s);
    var j := CatalogLeads(env, entries, k.1, s);
    e := if entries[j].importance > entries[i].importance then entries[j] else entries[i];
    forall f | StandsFor(env, entries, k, s, f) ensures f == e {
      var m: nat, n: nat :| IsLeading(env, entries, k.0, s, m) && IsLeading(env, entries, k.1, s, n)
          && f == if entries[n].importance > entries[m].importance then entries[n] else entries[m];
      LeadingUnique(env, entries, k.0, s, i, m);
      LeadingUnique(env, entries, k.1, s, j, n);
    }
  }

  lemma LargerIsPeak(env: Env, entries: seq<Entry>, k: Pair, s: Signature)
    requires s in Shared(CatalogOf(env, entries, k.0), CatalogOf(env, entries, k.1))
    ensures var a, b := CatalogOf(env, entries, k.0), CatalogOf(env, entries, k.1);
            IsPeak(env, entries, k, s, Max(a[s].importance, b[s].importance))
  {
    hide CatalogOf;
    var i := CatalogLeads(env, entries, k.0, s);
    var j := CatalogLeads(env, entries, k.1, s);
    assert entries[i] in entries && entries[j] in entries;
    forall e | e in entries && MentionedIn(env, e, k, s)
      ensures e.importance <= Max(entries[i].importance, entries[j].importance)
    {
      var m :| 0 <= m < |entries| && entries[m] == e;
      assert MentionedIn(env, entries[m], (k.0, k.0), s) || MentionedIn(env, entries[m], (k.1, k.1), s);
    }
  }

  function Larger(a: Catalog, b: Catalog, S: set<Signature>): map<Signature, real>
    requires S <= Shared(a, b)
  {
    map s | s in S :: Max(a[s].importance, b[s].importance)
  }

  lemma {:induction false} SumIsTotal(a: Catalog, b: Catalog, S: set<Signature>)
    requires S <= Shared(a, b)
    ensures Sum(Larger(a, b, S)) == Total(a, b, S)
    decreases S
  {
    if S == {} {
      assert Larger(a, b, S) == map[];
    } else {
      var s :| s in S;
      assert Larger(a, b, S) - {s} == Larger(a, b, S - {s});
      SumWithout(Larger(a, b, S), s);
      SumIsTotal(a, b, S - {s});
      TotalAdd(a, b, S, s);
    }
  }

  lemma SharedIsSharedBy(env: Env, entries: seq<Entry>, k: Pair)
    ensures Shared(CatalogOf(env, entries, k.0), CatalogOf(env, entries, k.1)) == SharedBy(env, entries, k)
    ensures |CatalogOf(env, entries, k.0)| == |Mentioned(env, entries, k.0)|
    ensures |CatalogOf(env, entries, k.1)| == |Mentioned(env, entries, k.1)|
  {
    CatalogKeys(env, entries, k.0);
    CatalogKeys(env, entries, k.1);
    hide CatalogOf, Mentioned;
    var a, b := CatalogOf(env, entries, k.0), CatalogOf(env, entries, k.1);
    assert |a| == |a.Keys| && |b| == |b.Keys|;
  }

  lemma TypesStand(env: Env, entries: seq<Entry>, k: Pair, t: string)
    ensures var a, b := CatalogOf(env, entries, k.0), CatalogOf(env, entries, k.1);
            t in Types(a, b, Shared(a, b))
            <==> exists s, e :: s in Shared(a, b) && StandsFor(env, entries, k, s, e) && e.kind == t
  {
    hide CatalogOf, StandsFor;
    var a, b := CatalogOf(env, entries, k.0), CatalogOf(env, entries, k.1);
    if t in Types(a, b, Shared(a, b)) {
      var s :| s in Shared(a, b) && Chosen(a[s], b[s]).kind == t;
      var e := ChosenStands(env, entries, k, s);
      assert s in Shared(a, b) && StandsFor(env, entries, k, s, e) && e.kind == t;
    }
    if s, e :| s in Shared(a, b) && StandsFor(env, entries, k, s, e) && e.kind == t {
      var f := ChosenStands(env, entries, k, s);
      assert f == e;
    }
  }

  lemma ArithmeticOfScore(l: nat, r: nat, peaks: map<Signature, real>, types: nat, jaccard: real, overlap: real,
                          average: real)
    requires 1 <= |peaks| <= l && |peaks| <= r
    requires jaccard == |peaks| as real / (l + r - |peaks|) as real
    requires overlap == |peaks| as real / Min(l as real, r as real)
    requires average == Sum(peaks) / |peaks| as real
    ensures PairScore(l, r, peaks, types) == Score(jaccard, overlap, average, types, |peaks|)
  {
    var n := |peaks|;
    assert Min(types as real / 3.0, 1.0) == if types >= 3 then 1.0 else types as real / 3.0;
    assert Min(n as real / 5.0, 1.0) == if n >= 5 then 1.0 else n as real / 5.0;
    assert Min(l as real, r as real) == (if l <= r then l else r) as real;
  }

  /** The edge of a pair in terms of its two catalogues. */
  lemma EdgeParts(env: Env, docs: map<string, Document>, entries: seq<Entry>, k: Pair, a: Catalog, b: Catalog, x: Edge)
    requires RelatedPair(env, docs, entries, k) && x == PairingOf(env, docs, entries, k).edge
    requires a == CatalogOf(env, entries, k.0) && b == CatalogOf(env, entries, k.1)
    ensures Shared(a, b) != {} && x == EdgeOf(env, docs[k.0], docs[k.1], a, b)
    ensures x.sharedCount == |Shared(a, b)| && x.sharedTypes == Types(a, b, Shared(a, b))
    ensures x.jaccard == env.round4(Jaccard(a, b)) && x.strength == env.round4(Overlap(a, b))
    ensures x.avgImportance == env.round4(Average(a, b)) && x.score == env.round4(RawScore(a, b))
    ensures x.maxImportance == env.round4(MaxImportance(a, b, Shared(a, b)))
  {
    hide CatalogOf, Jaccard, Overlap, Average, RawScore, MaxImportance, Types, SharedItems;
  }

  lemma EndsAreTold(env: Env, docs: map<string, Document>, entries: seq<Entry>, k: Pair)
    requires WellIdentified(docs) && RelatedPair(env, docs, entries, k)
    ensures EndsTell(docs, k, PairingOf(env, docs, entries, k).edge)
  {
    hide CatalogOf, Jaccard, Overlap, Average, RawScore, MaxImportance, Types, SharedItems;
  }

  lemma CountsAreTold(env: Env, entries: seq<Entry>, k: Pair, a: Catalog, b: Catalog, x: Edge)
    requires a == CatalogOf(env, entries, k.0) && b == CatalogOf(env, entries, k.1) && Shared(a, b) != {}
    requires x.sharedCount == |Shared(a, b)|
    requires x.jaccard == env.round4(Jaccard(a, b)) && x.strength == env.round4(Overlap(a, b))
    ensures CountsTell(env, entries, k, x)
  {
    SharedIsSharedBy(env, entries, k);
    NonEmptyCatalogs(a, b);
    hide CatalogOf, Mentioned, SharedBy;
    assert Min(|a| as real, |b| as real) == (if |a| <= |b| then |a| else |b|) as real;
  }

  lemma PeaksAreTold(env: Env, entries: seq<Entry>, k: Pair, a: Catalog, b: Catalog, x: Edge)
    returns (peaks: map<Signature, real>)
    requires a == CatalogOf(env, entries, k.0) && b == CatalogOf(env, entries, k.1) && Shared(a, b) != {}
    requires x.avgImportance == env.round4(Average(a, b)) && x.score == env.round4(RawScore(a, b))
    requires x.maxImportance == env.round4(MaxImportance(a, b, Shared(a, b)))
    requires x.sharedTypes == Types(a, b, Shared(a, b))
    ensures PeaksTell(env, entries, k, x, peaks)
  {
    hide CatalogOf, Mentioned, IsPeak, PairScore, RawScore, MaxImportance, Types, Larger, Sum, SharedBy, Average, IsTop;
    var S := Shared(a, b);
    peaks := Larger(a, b, S);
    SharedIsSharedBy(env, entries, k);
    LargerKeys(a, b, S);
    LargerAt(a, b, S);
    forall s | s in peaks ensures IsPeak(env, entries, k, s, peaks[s]) {
      LargerIsPeak(env, entries, k, s);
    }
    ScoreOfPeaks(a, b);
    TopIsMax(a, b, S);
  }

  lemma ScoreOfPeaks(a: Catalog, b: Catalog)
    requires Shared(a, b) != {}
    ensures var S := Shared(a, b);
            var peaks := Larger(a, b, S);
            && 1 <= |peaks| <= |a| && |peaks| <= |b| && Sum(peaks) / |peaks| as real == Average(a, b)
            && PairScore(|a|, |b|, peaks, |Types(a, b, S)|) == RawScore(a, b)
  {
    hide PairScore, Score, Types, Total, Larger, Sum;
    var S := Shared(a, b);
    NonEmptyCatalogs(a, b);
    LargerKeys(a, b, S);
    SumIsTotal(a, b, S);
    ArithmeticOfScore(|a|, |b|, Larger(a, b, S), |Types(a, b, S)|, Jaccard(a, b), Overlap(a, b), Average(a, b));
  }

  lemma LargerAt(a: Catalog, b: Catalog, S: set<Signature>)
    requires S <= Shared(a, b)
    ensures forall s | s in S :: s in Larger(a, b, S) && Larger(a, b, S)[s] == Max(a[s].importance, b[s].importance)
  {
  }

  lemma LargerKeys(a: Catalog, b: Catalog, S: set<Signature>)
    requires S <= Shared(a, b)
    ensures Larger(a, b, S).Keys == S && |Larger(a, b, S)| == |S|
  {
    assert |Larger(a, b, S)| == |Larger(a, b, S).Keys|;
  }

  lemma TopIsMax(a: Catalog, b: Catalog, S: set<Signature>)
    requires S <= Shared(a, b)
    ensures IsTop(Larger(a, b, S), MaxImportance(a, b, S))
  {
    var m, peaks := MaxImportance(a, b, S), Larger(a, b, S);
    if m != 0.0 {
      var s :| s in S && Max(a[s].importance, b[s].importance) == m;
      assert peaks[s] == m;
    }
  }

  /** The edge between two related documents says what follows from their entries. */
  lemma EdgeIsTold(env: Env, docs: map<string, Document>, entries: seq<Entry>, k: Pair)
    requires WellIdentified(docs) && RelatedPair(env, docs, entries, k)
    ensures EdgeTells(env, docs, entries, k, PairingOf(env, docs, entries, k).edge)
  {
    var x := PairingOf(env, docs, entries, k).edge;
    var a, b := CatalogOf(env, entries, k.0), CatalogOf(env, entries, k.1);
    hide CatalogOf, PairingOf, EdgeOf, TypeTells, PeaksTell, CountsTell, EndsTell;
    EndsAreTold(env, docs, entries, k);
    EdgeParts(env, docs, entries, k, a, b, x);
    CountsAreTold(env, entries, k, a, b, x);
    var peaks := PeaksAreTold(env, entries, k, a, b, x);
    forall t ensures TypeTells(env, entries, k, x, t) {
      TypesAreTold(env, docs, entries, k, t);
    }
  }

  lemma TypesAreTold(env: Env, docs: map<string, Document>, entries: seq<Entry>, k: Pair, t: string)
    requires RelatedPair(env, docs, entries, k)
    ensures TypeTells(env, entries, k, PairingOf(env, docs, entries, k).edge, t)
  {
    hide CatalogOf, StandsFor, Mentioned, Types;
    TypesStand(env, entries, k, t);
    SharedIsSharedBy(env, entries, k);
  }

  /** Two documents are related exactly if they share a signature. */
  lemma RelatedIffShared(env: Env, docs: map<string, Document>, entries: seq<Entry>, k: Pair)
    ensures k in RelatedTable(env, docs, entries)
            <==> k.0 in docs && k.1 in docs && StrLess(k.0, k.1) && SharedBy(env, entries, k) != {}
  {
    RelatedTableAt(env, docs, entries, k);
    SharedIsSharedBy(env, entries, k);
    hide CatalogOf, Mentioned, SharedBy;
  }

  /** A shown memory: that of the entry that stands for `s`, with the importance of its most important mention. */
  ghost predicate MemoryTells(env: Env, entries: seq<Entry>, k: Pair, s: Signature, p: Payload) {
    && s in SharedBy(env, entries, k)
    && (exists e :: StandsFor(env, entries, k, s, e) && p.name == e.name && p.kind == e.kind)
    && exists m :: IsPeak(env, entries, k, s, m) && p.importance == env.round4(m)
  }

  /** A returned edge joins two documents, says of them what follows from their entries, and shows memories of
      distinct shared signatures: all of them, or eight if there are more. */
  ghost predicate Tells(env: Env, docs: map<string, Document>, entries: seq<Entry>, x: Related) {
    exists k, sigs ::
      && EdgeTells(env, docs, entries, k, x.edge)
      && Distinct(sigs) && |sigs| == |x.shared| == (if x.edge.sharedCount <= 8 then x.edge.sharedCount else 8)
      && forall i | 0 <= i < |sigs| :: MemoryTells(env, entries, k, sigs[i], x.shared[i])
  }

  /** Whatever `BuildRelatedEdges` returns tells the truth about the entries. */
  lemma RelatedTells(env: Env, docs: map<string, Document>, entries: seq<Entry>, x: Related)
    requires WellIdentified(docs) && Describable(RelatedTable(env, docs, entries), x)
    ensures Tells(env, docs, entries, x)
  {
    hide EdgeTells, MemoryTells, CatalogOf, RelatedTable;
    var table := RelatedTable(env, docs, entries);
    var k :| Describes(table, x, k);
    RelatedTableAt(env, docs, entries, k);
    EdgeIsTold(env, docs, entries, k);
    var sigs :| Samples(x.shared, table[k].items, sigs);
    forall i | 0 <= i < |sigs| ensures MemoryTells(env, entries, k, sigs[i], x.shared[i]) {
      MemoryIsTold(env, entries, k, sigs[i]);
    }
  }

  lemma MemoryIsTold(env: Env, entries: seq<Entry>, k: Pair, s: Signature)
    requires s in Shared(CatalogOf(env, entries, k.0), CatalogOf(env, entries, k.1))
    ensures var a, b := CatalogOf(env, entries, k.0), CatalogOf(env, entries, k.1);
            MemoryTells(env, entries, k, s, SharedItem(env, a[s], b[s]))
  {
    SharedIsSharedBy(env, entries, k);
    LargerIsPeak(env, entries, k, s);
    var e := ChosenStands(env, entries, k, s);
    hide CatalogOf, StandsFor, IsPeak, SharedBy;
  }
}
