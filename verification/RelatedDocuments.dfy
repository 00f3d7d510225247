/** Related-document edges (app/mneme/domains/graph/service.py).

    The specification is pairwise: two documents are related by the memory
    signatures they share. The program never compares pairs: it inverts the
    catalogues into an index from signature to documents, expands each posting
    list into pairs, and accumulates a bucket per pair. `BuildRelatedEdges`
    proves that both give the same edges, in the same order, whatever order the
    dictionaries are walked in. */
module RelatedDocuments {
  import opened Sorting

  /** Text normalisation and four-digit rounding; every result holds for any choice of them. */
  datatype Env = Env(normalize: string -> string, round4: real -> real)

  datatype Document = Document(id: string, kb: string, fileName: string)

  datatype Entry = Entry(documentId: string, kb: string, name: string, kind: string, importance: real)

  type Signature = (string, string)

  type Pair = (string, string)

  datatype Payload = Payload(name: string, kind: string, importance: real)

  /** What one document contributes: its signatures, each with the payload that represents it. */
  type Catalog = map<Signature, Payload>

  datatype Edge = Edge(source: string, target: string, sharedCount: nat, sharedTypes: set<string>,
                       strength: real, jaccard: real, avgImportance: real, score: real, maxImportance: real,
                       crossKb: bool, sourceName: string, targetName: string, sourceKb: string, targetKb: string)

  /** An edge as returned: with its sample of shared memories and its rank. */
  datatype Related = Related(edge: Edge, shared: seq<Payload>, rank: nat)

  /** What the specification says of one pair: its edge, and the memories its sample is taken from. */
  datatype Pairing = Pairing(edge: Edge, items: map<Signature, Payload>)

  datatype Bucket = Bucket(shared: seq<Payload>, types: set<string>, max: real, total: real)

  datatype Cap = Unlimited | AtMost(n: int)

  // ----- specification: documents and their catalogues

  function DocMap(docs: seq<Document>): map<string, Document> {
    if docs == [] then map[]
    else DocMap(docs[..|docs| - 1])[docs[|docs| - 1].id := docs[|docs| - 1]]
  }

  function SignatureOf(env: Env, e: Entry): Signature {
    (env.normalize(e.name), env.normalize(e.kind))
  }

  predicate Mentions(env: Env, e: Entry, d: string, s: Signature) {
    e.documentId == d && env.normalize(e.name) != "" && SignatureOf(env, e) == s
  }

  function PayloadOf(e: Entry): Payload {
    Payload(e.name, e.kind, e.importance)
  }

  function Note(env: Env, c: Catalog, e: Entry): Catalog {
    var s := SignatureOf(env, e);
    if s !in c || e.importance > c[s].importance then c[s := PayloadOf(e)] else c
  }

  function CatalogOf(env: Env, entries: seq<Entry>, d: string): Catalog {
    if entries == [] then map[]
    else
      var c := CatalogOf(env, entries[..|entries| - 1], d);
      var e := entries[|entries| - 1];
      if e.documentId == d && env.normalize(e.name) != "" then Note(env, c, e) else c
  }

  /** Entry `i` is the first of the most important mentions of `s` in document `d`. */
  ghost predicate FirstBest(env: Env, entries: seq<Entry>, d: string, s: Signature, i: nat) {
    && i < |entries| && Mentions(env, entries[i], d, s)
    && (forall j | 0 <= j < |entries| && Mentions(env, entries[j], d, s) ::
          entries[j].importance <= entries[i].importance)
    && (forall j | 0 <= j < i && Mentions(env, entries[j], d, s) :: entries[j].importance < entries[i].importance)
  }

  /** A catalogue holds exactly the mentioned signatures, each with its first best entry. */
  lemma {:induction false} CatalogIsFirstBest(env: Env, entries: seq<Entry>, d: string, s: Signature)
    ensures s in CatalogOf(env, entries, d) <==> exists e :: e in entries && Mentions(env, e, d, s)
    ensures s in CatalogOf(env, entries, d) ==>
              exists i: nat :: FirstBest(env, entries, d, s, i)
                  && CatalogOf(env, entries, d)[s] == PayloadOf(entries[i])
  {
    if entries != [] {
      var n := |entries| - 1;
      var front := entries[..n];
      CatalogIsFirstBest(env, front, d, s);
      assert entries == front + [entries[n]];
      if s in CatalogOf(env, entries, d) {
        if s in CatalogOf(env, front, d) && CatalogOf(env, entries, d)[s] == CatalogOf(env, front, d)[s]
           && (Mentions(env, entries[n], d, s) ==> entries[n].importance <= CatalogOf(env, front, d)[s].importance) {
          var i: nat :| FirstBest(env, front, d, s, i) && CatalogOf(env, front, d)[s] == PayloadOf(front[i]);
          assert FirstBest(env, entries, d, s, i);
        } else {
          assert Mentions(env, entries[n], d, s);
          assert FirstBest(env, entries, d, s, n);
        }
      }
    }
  }

  // ----- specification: pairs

  function Shared(a: Catalog, b: Catalog): set<Signature> {
    a.Keys * b.Keys
  }

  /** The payload chosen to stand for a shared signature: the left one unless the right one matters more. */
  function Chosen(l: Payload, r: Payload): Payload {
    if l.importance >= r.importance then l else r
  }

  function Max(x: real, y: real): real {
    if x >= y then x else y
  }

  function Min(x: real, y: real): real {
    if x <= y then x else y
  }

  /** The sum over `S` of the larger of the two documents' importances. */
  ghost function Total(a: Catalog, b: Catalog, S: set<Signature>): real
    requires S <= Shared(a, b)
  {
    if S == {} then 0.0
    else
      var s :| s in S;
      Total(a, b, S - {s}) + Max(a[s].importance, b[s].importance)
  }

  lemma {:induction false} TotalAdd(a: Catalog, b: Catalog, S: set<Signature>, s: Signature)
    requires S <= Shared(a, b) && s in S
    ensures Total(a, b, S) == Total(a, b, S - {s}) + Max(a[s].importance, b[s].importance)
    decreases S
  {
    var t :| t in S && Total(a, b, S) == Total(a, b, S - {t}) + Max(a[t].importance, b[t].importance);
    if t != s {
      TotalAdd(a, b, S - {t}, s);
      TotalAdd(a, b, S - {s}, t);
      assert S - {t} - {s} == S - {s} - {t};
    }
  }

  function Types(a: Catalog, b: Catalog, S: set<Signature>): set<string>
    requires S <= Shared(a, b)
  {
    set s | s in S :: Chosen(a[s], b[s]).kind
  }

  /** `m` is the largest importance over `S` in either document, or 0.0 when none exceeds it. */
  ghost predicate IsMaxImportance(m: real, a: Catalog, b: Catalog, S: set<Signature>)
    requires S <= Shared(a, b)
  {
    && m >= 0.0
    && (forall s | s in S :: a[s].importance <= m && b[s].importance <= m)
    && (m == 0.0 || exists s :: s in S && Max(a[s].importance, b[s].importance) == m)
  }

  ghost function MaxImportance(a: Catalog, b: Catalog, S: set<Signature>): (m: real)
    requires S <= Shared(a, b)
    ensures IsMaxImportance(m, a, b, S)
  {
    if S == {} then 0.0
    else
      var s :| s in S;
      Max(MaxImportance(a, b, S - {s}), Max(a[s].importance, b[s].importance))
  }

  lemma MaxImportanceUnique(m: real, a: Catalog, b: Catalog, S: set<Signature>)
    requires S <= Shared(a, b) && IsMaxImportance(m, a, b, S)
    ensures m == MaxImportance(a, b, S)
  {
  }

  function Score(jaccard: real, overlap: real, avg: real, types: nat, count: nat): real {
    0.35 * jaccard + 0.20 * overlap + 0.25 * avg
    + 0.10 * Min(types as real / 3.0, 1.0) + 0.10 * Min(count as real / 5.0, 1.0)
  }

  ghost function Jaccard(a: Catalog, b: Catalog): real
    requires Shared(a, b) != {}
  {
    assert a.Keys + b.Keys != {};
    |Shared(a, b)| as real / |a.Keys + b.Keys| as real
  }

  ghost function Overlap(a: Catalog, b: Catalog): real
    requires Shared(a, b) != {}
  {
    NonEmptyCatalogs(a, b);
    |Shared(a, b)| as real / Min(|a| as real, |b| as real)
  }

  lemma NonEmptyCatalogs(a: Catalog, b: Catalog)
    requires Shared(a, b) != {}
    ensures 1 <= |Shared(a, b)| <= |a| && |Shared(a, b)| <= |b|
    ensures |a| + |b| - |Shared(a, b)| == |a.Keys + b.Keys| >= |Shared(a, b)|
  {
    assert Shared(a, b) <= a.Keys && Shared(a, b) <= b.Keys;
    SubsetSize(Shared(a, b), a.Keys);
    SubsetSize(Shared(a, b), b.Keys);
  }

  ghost function Average(a: Catalog, b: Catalog): real
    requires Shared(a, b) != {}
  {
    Total(a, b, Shared(a, b)) / |Shared(a, b)| as real
  }

  ghost function RawScore(a: Catalog, b: Catalog): real
    requires Shared(a, b) != {}
  {
    Score(Jaccard(a, b), Overlap(a, b), Average(a, b), |Types(a, b, Shared(a, b))|, |Shared(a, b)|)
  }

  ghost function EdgeOf(env: Env, l: Document, r: Document, a: Catalog, b: Catalog): Edge
    requires Shared(a, b) != {}
  {
    var S := Shared(a, b);
    Edge("document:" + l.id, "document:" + r.id, |S|, Types(a, b, S),
         env.round4(Overlap(a, b)), env.round4(Jaccard(a, b)), env.round4(Average(a, b)),
         env.round4(RawScore(a, b)), env.round4(MaxImportance(a, b, S)),
         l.kb != r.kb, l.fileName, r.fileName, l.kb, r.kb)
  }

  predicate Passes(e: Edge, minCount: int, minScore: real) {
    e.sharedCount >= minCount && e.score >= minScore
  }

  function SharedItem(env: Env, l: Payload, r: Payload): Payload {
    Chosen(l, r).(importance := env.round4(Max(l.importance, r.importance)))
  }

  /** The memory shown for each signature of `S`. */
  function SharedItems(env: Env, a: Catalog, b: Catalog, S: set<Signature>): map<Signature, Payload>
    requires S <= Shared(a, b)
  {
    map s | s in S :: SharedItem(env, a[s], b[s])
  }

  /** `shared` shows the memories of the distinct signatures `sigs`, one each. */
  ghost predicate Samples(shared: seq<Payload>, items: map<Signature, Payload>, sigs: seq<Signature>) {
    && |sigs| == |shared| && Distinct(sigs)
    && forall i | 0 <= i < |sigs| :: sigs[i] in items && shared[i] == items[sigs[i]]
  }

  ghost predicate RelatedPair(env: Env, docs: map<string, Document>, entries: seq<Entry>, k: Pair) {
    && k.0 in docs && k.1 in docs && StrLess(k.0, k.1)
    && Shared(CatalogOf(env, entries, k.0), CatalogOf(env, entries, k.1)) != {}
  }

  ghost function PairingOf(env: Env, docs: map<string, Document>, entries: seq<Entry>, k: Pair): Pairing
    requires RelatedPair(env, docs, entries, k)
  {
    var a, b := CatalogOf(env, entries, k.0), CatalogOf(env, entries, k.1);
    Pairing(EdgeOf(env, docs[k.0], docs[k.1], a, b), SharedItems(env, a, b, Shared(a, b)))
  }

  /** Every related pair of documents, smaller identifier first, by comparing every two of them. */
  ghost function RelatedTable(env: Env, docs: map<string, Document>, entries: seq<Entry>): map<Pair, Pairing> {
    map l, r | l in docs.Keys && r in docs.Keys && RelatedPair(env, docs, entries, (l, r))
      :: (l, r) := PairingOf(env, docs, entries, (l, r))
  }

  lemma RelatedTableAt(env: Env, docs: map<string, Document>, entries: seq<Entry>, k: Pair)
    ensures k in RelatedTable(env, docs, entries) <==> RelatedPair(env, docs, entries, k)
    ensures RelatedPair(env, docs, entries, k) ==>
              RelatedTable(env, docs, entries)[k] == PairingOf(env, docs, entries, k)
  {
    assert k == (k.0, k.1);
  }

  ghost predicate PassingPair(table: map<Pair, Pairing>, minCount: int, minScore: real, k: Pair) {
    k in table && Passes(table[k].edge, minCount, minScore)
  }

  /** The edges meeting the thresholds. */
  ghost function Qualifying(table: map<Pair, Pairing>, minCount: int, minScore: real): set<Edge> {
    set k | k in table.Keys && PassingPair(table, minCount, minScore, k) :: table[k].edge
  }

  /** Best score first, then most shared, then most similar, then by document identifiers. */
  predicate EdgeBefore(x: Edge, y: Edge) {
    if x.score != y.score then x.score > y.score
    else if x.sharedCount != y.sharedCount then x.sharedCount > y.sharedCount
    else if x.jaccard != y.jaccard then x.jaccard > y.jaccard
    else if x.source != y.source then StrLess(x.source, y.source)
    else StrLess(x.target, y.target)
  }

  /** `x` may stand before `y`: it has the greater score, or the same and the more shared memories, or those too and
      the greater similarity, or all of that and the smaller source, or that too and the smaller target. */
  predicate Outranks(x: Edge, y: Edge) {
    && x.score >= y.score
    && (x.score == y.score ==> x.sharedCount >= y.sharedCount)
    && (x.score == y.score && x.sharedCount == y.sharedCount ==> x.jaccard >= y.jaccard)
    && (x.score == y.score && x.sharedCount == y.sharedCount && x.jaccard == y.jaccard ==>
          StrLess(x.source, y.source) || (x.source == y.source && StrLess(x.target, y.target)))
  }

  ghost predicate BestFirst(edges: seq<Edge>) {
    forall i, j | 0 <= i < j < |edges| :: Outranks(edges[i], edges[j])
  }

  /** `edges` are the best of those in `S` that have enough shared memories and score enough, best first. Only a cap
      that is used up keeps one of them out, and then none that is kept ranks behind it. */
  ghost predicate BestOf(edges: seq<Edge>, S: set<Edge>, minCount: int, minScore: real, cap: Cap) {
    && BestFirst(edges)
    && (forall e | e in edges :: e in S && e.sharedCount >= minCount && e.score >= minScore)
    && (forall e | e in S && e !in edges && e.sharedCount >= minCount && e.score >= minScore ::
          cap.AtMost? && (cap.n >= 0 ==> |edges| == cap.n) && forall x | x in edges :: Outranks(x, e))
  }

  lemma BeforeOutranks(x: Edge, y: Edge)
    requires EdgeBefore(x, y)
    ensures Outranks(x, y)
  {
  }

  lemma CutIsPrefix<T>(s: seq<T>, cap: Cap)
    ensures Cut(s, cap) <= s
    ensures |Cut(s, cap)| < |s| ==> cap.AtMost? && (cap.n >= 0 ==> |Cut(s, cap)| == cap.n)
  {
  }

  /** What is kept of a list in rank order is the best of it. */
  lemma CutKeepsBest(list: seq<Edge>, S: set<Edge>, minCount: int, minScore: real, cap: Cap)
    requires Increasing(list, EdgeBefore)
    requires forall e :: e in list <==> e in S && e.sharedCount >= minCount && e.score >= minScore
    ensures BestOf(Cut(list, cap), S, minCount, minScore, cap)
  {
    var kept := Cut(list, cap);
    CutIsPrefix(list, cap);
    hide Cut, Outranks;
    forall i, j | 0 <= i < j < |list| ensures Outranks(list[i], list[j]) {
      BeforeOutranks(list[i], list[j]);
    }
    hide EdgeBefore, Increasing;
    assert forall m | 0 <= m < |kept| :: kept[m] == list[m] && kept[m] in kept && list[m] in list;
    forall e | e in list && e !in kept
      ensures |kept| < |list| && forall x | x in kept :: Outranks(x, e)
    {
      var j :| 0 <= j < |list| && list[j] == e;
      assert j >= |kept|;
      forall x | x in kept ensures Outranks(x, e) {
        var i :| 0 <= i < |kept| && kept[i] == x;
        assert Outranks(list[i], list[j]);
      }
    }
  }

  /** Two edges of `S` never join the same two documents. */
  ghost predicate OnePerPair(S: set<Edge>) {
    forall x, y | x in S && y in S && x.source == y.source && x.target == y.target :: x == y
  }

  lemma EdgeBeforeAsymmetric(x: Edge, y: Edge)
    ensures !(EdgeBefore(x, y) && EdgeBefore(y, x))
    ensures (x.source == y.source && x.target == y.target) || EdgeBefore(x, y) || EdgeBefore(y, x)
  {
    StrTrichotomy(x.source, y.source);
    StrTrichotomy(x.target, y.target);
  }

  lemma EdgeNotBeforeTransitive(x: Edge, y: Edge, z: Edge)
    requires !EdgeBefore(y, x) && !EdgeBefore(z, y)
    ensures !EdgeBefore(z, x)
  {
    if x.source == y.source == z.source {
      if !StrLess(y.target, x.target) && !StrLess(z.target, y.target) {
        StrNotLessTransitive(x.target, y.target, z.target);
      }
    } else if !StrLess(y.source, x.source) && !StrLess(z.source, y.source) {
      StrNotLessTransitive(x.source, y.source, z.source);
      StrTrichotomy(x.source, y.source);
      StrTrichotomy(y.source, z.source);
    }
  }

  lemma EdgeOrder(S: set<Edge>)
    requires OnePerPair(S)
    ensures WeakOrder(EdgeBefore) && StrictTotalOn(S, EdgeBefore)
  {
    forall x, y
      ensures !(EdgeBefore(x, y) && EdgeBefore(y, x))
      ensures (x.source == y.source && x.target == y.target) || EdgeBefore(x, y) || EdgeBefore(y, x)
    {
      EdgeBeforeAsymmetric(x, y);
    }
    forall x, y, z | !EdgeBefore(y, x) && !EdgeBefore(z, y) ensures !EdgeBefore(z, x) {
      EdgeNotBeforeTransitive(x, y, z);
    }
    WeakOrderTransitive(EdgeBefore);
  }

  ghost predicate WellIdentified(docs: map<string, Document>) {
    forall d | d in docs :: docs[d].id == d
  }

  lemma {:induction false} DocMapIdentified(docs: seq<Document>)
    ensures WellIdentified(DocMap(docs))
  {
    if docs != [] {
      DocMapIdentified(docs[..|docs| - 1]);
    }
  }

  /** The two ends of an edge tell which pair it belongs to. */
  ghost predicate EndsIdentify(table: map<Pair, Pairing>) {
    forall k, m | k in table && m in table
                  && table[k].edge.source == table[m].edge.source && table[k].edge.target == table[m].edge.target
                  :: k == m
  }

  lemma RelatedTableEnds(env: Env, docs: map<string, Document>, entries: seq<Entry>)
    requires WellIdentified(docs)
    ensures EndsIdentify(RelatedTable(env, docs, entries))
  {
    var p := "document:";
    forall l: string, k: string | p + l == p + k ensures l == k {
      assert (p + l)[|p|..] == l && (p + k)[|p|..] == k;
    }
  }

  /** The qualifying edges in rank order. */
  ghost function EdgeList(table: map<Pair, Pairing>, minCount: int, minScore: real): seq<Edge>
    requires EndsIdentify(table)
  {
    EdgeOrder(Qualifying(table, minCount, minScore));
    Enumerate(Qualifying(table, minCount, minScore), EdgeBefore)
  }

  ghost function AllEdges(table: map<Pair, Pairing>): set<Edge> {
    set k | k in table.Keys :: table[k].edge
  }

  lemma EdgeListKeepsBest(table: map<Pair, Pairing>, minCount: int, minScore: real, cap: Cap)
    requires EndsIdentify(table)
    ensures BestOf(Cut(EdgeList(table, minCount, minScore), cap), AllEdges(table), minCount, minScore, cap)
  {
    var list := EdgeList(table, minCount, minScore);
    EdgeOrder(Qualifying(table, minCount, minScore));
    forall e ensures e in list <==> e in AllEdges(table) && e.sharedCount >= minCount && e.score >= minScore {
      assert e in Elems(list) <==> e in Qualifying(table, minCount, minScore);
      if e in AllEdges(table) && e.sharedCount >= minCount && e.score >= minScore {
        var k :| k in table.Keys && table[k].edge == e;
        assert PassingPair(table, minCount, minScore, k);
      }
    }
    CutKeepsBest(list, AllEdges(table), minCount, minScore, cap);
  }

  function Cut<T>(items: seq<T>, cap: Cap): seq<T> {
    match cap
    case Unlimited => items
    case AtMost(n) => Slice(items, n)
  }

  ghost predicate InUnit(c: Catalog) {
    forall s | s in c :: 0.0 <= c[s].importance <= 1.0
  }

  /** The unrounded score of importances in [0, 1] lies in [0, 1], and the code's union count is exact. */
  lemma ScoreInUnitInterval(a: Catalog, b: Catalog)
    requires Shared(a, b) != {}
    requires InUnit(a) && InUnit(b)
    ensures 0.0 <= RawScore(a, b) <= 1.0
  {
    NonEmptyCatalogs(a, b);
    Quotient(|Shared(a, b)| as real, |a.Keys + b.Keys| as real);
    Quotient(|Shared(a, b)| as real, Min(|a| as real, |b| as real));
    TotalBounds(a, b, Shared(a, b));
    Quotient(Total(a, b, Shared(a, b)), |Shared(a, b)| as real);
  }

  lemma CatalogImportances(env: Env, entries: seq<Entry>, d: string)
    requires forall e | e in entries :: 0.0 <= e.importance <= 1.0
    ensures InUnit(CatalogOf(env, entries, d))
  {
    forall s | s in CatalogOf(env, entries, d) ensures 0.0 <= CatalogOf(env, entries, d)[s].importance <= 1.0 {
      CatalogIsFirstBest(env, entries, d, s);
      var i: nat :| FirstBest(env, entries, d, s, i) && CatalogOf(env, entries, d)[s] == PayloadOf(entries[i]);
      assert entries[i] in entries;
    }
  }

  /** When all importances lie in [0, 1], so does the unrounded score of every related pair. */
  lemma RelatedScoresInUnitInterval(env: Env, docs: map<string, Document>, entries: seq<Entry>, k: Pair)
    requires RelatedPair(env, docs, entries, k) && forall e | e in entries :: 0.0 <= e.importance <= 1.0
    ensures 0.0 <= RawScore(CatalogOf(env, entries, k.0), CatalogOf(env, entries, k.1)) <= 1.0
  {
    hide RawScore, CatalogOf;
    CatalogImportances(env, entries, k.0);
    CatalogImportances(env, entries, k.1);
    ScoreInUnitInterval(CatalogOf(env, entries, k.0), CatalogOf(env, entries, k.1));
  }

  lemma Quotient(n: real, d: real)
    requires 0.0 <= n <= d && d > 0.0
    ensures 0.0 <= n / d <= 1.0
  {
  }

  lemma {:induction false} TotalBounds(a: Catalog, b: Catalog, S: set<Signature>)
    requires S <= Shared(a, b)
    requires InUnit(a) && InUnit(b)
    ensures 0.0 <= Total(a, b, S) <= |S| as real
    decreases S
  {
    if S != {} {
      var s :| s in S;
      TotalAdd(a, b, S, s);
      TotalBounds(a, b, S - {s});
    }
  }
}
