/** The stored copy of the related edges: rebuilt at user scope
    (app/mneme/domains/graph/projection.py) and read back per knowledge base
    (app/mneme/domains/graph/query.py). Reading agrees with computing directly. */
module RelatedProjection {
  import opened Sorting
  import opened RelatedDocuments
  import opened RelatedIndex

  function NodeDocument(node: string): string {
    if "document:" <= node then node[|"document:"|..] else node
  }

  function NodePair(e: Edge): Pair {
    (NodeDocument(e.source), NodeDocument(e.target))
  }

  /** What a rebuild stores: every related pair whose rounded score is not negative. */
  ghost function Stored(table: map<Pair, Pairing>): map<Pair, Edge> {
    map k | k in table && Passes(table[k].edge, 1, 0.0) :: table[k].edge
  }

  ghost predicate NamedByEnds(related: map<Pair, Edge>) {
    forall k | k in related :: related[k].source == "document:" + k.0 && related[k].target == "document:" + k.1
  }

  /** ORDER BY relationship_score DESC, shared_memory_count DESC, jaccard_similarity DESC, source.id, target.id. */
  predicate RowBefore(x: (Pair, Edge), y: (Pair, Edge)) {
    if x.1.score != y.1.score then x.1.score > y.1.score
    else if x.1.sharedCount != y.1.sharedCount then x.1.sharedCount > y.1.sharedCount
    else if x.1.jaccard != y.1.jaccard then x.1.jaccard > y.1.jaccard
    else if x.0.0 != y.0.0 then StrLess(x.0.0, y.0.0)
    else StrLess(x.0.1, y.0.1)
  }

  function RowEdge(x: (Pair, Edge)): Edge {
    x.1.(source := "document:" + x.0.0, target := "document:" + x.0.1)
  }

  lemma RowOrderIsEdgeOrder()
    ensures forall x, y :: RowBefore(x, y) == EdgeBefore(RowEdge(x), RowEdge(y))
  {
    forall x, y ensures RowBefore(x, y) == EdgeBefore(RowEdge(x), RowEdge(y)) {
      var p := "document:";
      StrPrefix(p, x.0.0, y.0.0);
      StrPrefix(p, x.0.1, y.0.1);
      assert (p + x.0.0)[|p|..] == x.0.0 && (p + y.0.0)[|p|..] == y.0.0;
    }
  }

  ghost function EdgesAmong(related: map<Pair, Edge>, members: set<string>): set<Edge> {
    set k | k in related && k.0 in members && k.1 in members :: related[k]
  }

  lemma NamedOnePerPair(related: map<Pair, Edge>, members: set<string>)
    requires NamedByEnds(related)
    ensures OnePerPair(EdgesAmong(related, members))
  {
    var p := "document:";
    forall l: string, k: string | p + l == p + k ensures l == k {
      assert (p + l)[|p|..] == l && (p + k)[|p|..] == k;
    }
  }

  /** The stored edges among the documents `members`, in rank order. */
  ghost function ReadOrder(related: map<Pair, Edge>, members: set<string>): seq<Edge>
    requires NamedByEnds(related)
  {
    NamedOnePerPair(related, members);
    EdgeOrder(EdgesAmong(related, members));
    Enumerate(EdgesAmong(related, members), EdgeBefore)
  }

  function Threshold(minCount: int, minScore: real): Edge -> bool {
    e => Passes(e, minCount, minScore)
  }

  /** What a read keeps are the best of the stored edges among `members`. */
  lemma ReadKeepsBest(related: map<Pair, Edge>, members: set<string>, minCount: int, minScore: real, cap: Cap)
    requires NamedByEnds(related)
    ensures BestOf(Cut(Filter(Threshold(minCount, minScore), ReadOrder(related, members)), cap),
                   EdgesAmong(related, members), minCount, minScore, cap)
  {
    var S := EdgesAmong(related, members);
    NamedOnePerPair(related, members);
    EdgeOrder(S);
    var read := ReadOrder(related, members);
    FilterIncreasing(Threshold(minCount, minScore), read, EdgeBefore);
    var list := Filter(Threshold(minCount, minScore), read);
    hide EdgesAmong, NamedByEnds, BestOf;
    forall e ensures e in list <==> e in S && e.sharedCount >= minCount && e.score >= minScore {
      assert e in Elems(read) <==> e in S;
    }
    CutKeepsBest(list, S, minCount, minScore, cap);
  }

  // ----- restricting documents and entries to one knowledge base

  lemma CatalogLast(env: Env, front: seq<Entry>, last: Entry, d: string)
    ensures CatalogOf(env, front + [last], d)
            == if last.documentId == d && env.normalize(last.name) != "" then Note(env, CatalogOf(env, front, d), last)
               else CatalogOf(env, front, d)
  {
    hide Note;
    assert (front + [last])[..|front|] == front;
  }

  lemma FilterLast(p: Entry -> bool, front: seq<Entry>, last: Entry)
    ensures Filter(p, front + [last]) == Filter(p, front) + if p(last) then [last] else []
  {
    FilterAppend(p, front, [last]);
    assert [last][1..] == [];
  }

  lemma {:induction false} CatalogFilter(env: Env, entries: seq<Entry>, p: Entry -> bool, d: string)
    requires forall e | e in entries && e.documentId == d :: p(e)
    ensures CatalogOf(env, Filter(p, entries), d) == CatalogOf(env, entries, d)
  {
    if entries == [] {
      assert Filter(p, entries) == entries;
    } else {
      hide Note, CatalogOf, Filter;
      var n := |entries| - 1;
      var front, last := entries[..n], entries[n];
      assert entries == front + [last];
      FilterLast(p, front, last);
      CatalogFilter(env, front, p, d);
      CatalogLast(env, front, last, d);
      if p(last) {
        CatalogLast(env, Filter(p, front), last, d);
      } else {
        assert Filter(p, front) + [] == Filter(p, front);
      }
    }
  }

  ghost predicate DistinctIds(docs: seq<Document>) {
    forall i, j | 0 <= i < j < |docs| :: docs[i].id != docs[j].id
  }

  lemma {:induction false} DocMapHolds(docs: seq<Document>)
    requires DistinctIds(docs)
    ensures forall x :: x in docs <==> x.id in DocMap(docs) && DocMap(docs)[x.id] == x
  {
    if docs != [] {
      var n := |docs| - 1;
      assert docs == docs[..n] + [docs[n]];
      DocMapHolds(docs[..n]);
      DocMapIdentified(docs[..n]);
      forall x ensures x in docs <==> x.id in DocMap(docs) && DocMap(docs)[x.id] == x {
        if x in docs[..n] {
          var i :| 0 <= i < n && docs[i] == x;
          assert x.id != docs[n].id;
        }
      }
    }
  }

  lemma {:induction false} FilterDistinctIds(docs: seq<Document>, p: Document -> bool)
    requires DistinctIds(docs)
    ensures DistinctIds(Filter(p, docs))
  {
    if docs != [] {
      FilterDistinctIds(docs[1..], p);
      forall x | x in Filter(p, docs[1..]) ensures x.id != docs[0].id {
        assert x in docs[1..];
      }
    }
  }

  function InKb(kb: string): Document -> bool {
    (d: Document) => d.kb == kb
  }

  function OfKb(kb: string): Entry -> bool {
    (e: Entry) => e.kb == kb
  }

  /** Every entry of a listed document is recorded under the knowledge base of that document. */
  ghost predicate EntriesFollowDocuments(docs: map<string, Document>, entries: seq<Entry>) {
    forall e | e in entries && e.documentId in docs :: e.kb == docs[e.documentId].kb
  }

  lemma KbDocuments(documents: seq<Document>, kb: string)
    requires DistinctIds(documents)
    ensures forall d :: d in DocMap(Filter(InKb(kb), documents))
                        <==> d in DocMap(documents) && DocMap(documents)[d].kb == kb
    ensures forall d | d in DocMap(Filter(InKb(kb), documents)) ::
              DocMap(Filter(InKb(kb), documents))[d] == DocMap(documents)[d]
  {
    var part := Filter(InKb(kb), documents);
    FilterDistinctIds(documents, InKb(kb));
    DocMapHolds(documents);
    DocMapHolds(part);
    DocMapIdentified(documents);
    DocMapIdentified(part);
    forall d | d in DocMap(part)
      ensures d in DocMap(documents) && DocMap(documents)[d] == DocMap(part)[d] && DocMap(part)[d].kb == kb
    {
      assert DocMap(part)[d] in part;
    }
    forall d | d in DocMap(documents) && DocMap(documents)[d].kb == kb ensures d in DocMap(part) {
      assert DocMap(documents)[d] in documents;
      assert DocMap(documents)[d] in part;
    }
  }

  /** The pairs related inside one knowledge base are the user's related pairs inside it, with the same edges. */
  lemma KbTable(env: Env, documents: seq<Document>, entries: seq<Entry>, kb: string, k: Pair)
    requires DistinctIds(documents) && EntriesFollowDocuments(DocMap(documents), entries)
    ensures var all := RelatedTable(env, DocMap(documents), entries);
            var part := RelatedTable(env, DocMap(Filter(InKb(kb), documents)), Filter(OfKb(kb), entries));
            && (k in part <==> k in all && DocMap(documents)[k.0].kb == kb && DocMap(documents)[k.1].kb == kb)
            && (k in part ==> part[k] == all[k])
  {
    var docs, sub := DocMap(documents), DocMap(Filter(InKb(kb), documents));
    var some := Filter(OfKb(kb), entries);
    KbDocuments(documents, kb);
    RelatedTableAt(env, docs, entries, k);
    RelatedTableAt(env, sub, some, k);
    if k.0 in sub {
      CatalogFilter(env, entries, OfKb(kb), k.0);
    }
    if k.1 in sub {
      CatalogFilter(env, entries, OfKb(kb), k.1);
    }
  }

  /** Reading the stored copy for one knowledge base, filtering and then truncating, gives the same edges in the
      same order as computing directly on that knowledge base, with a negative score threshold counting as 0. */
  lemma StoredReadIsDirect(env: Env, documents: seq<Document>, entries: seq<Entry>, kb: string, members: set<string>,
                           related: map<Pair, Edge>, minCount: int, minScore: real, cap: Cap)
    requires DistinctIds(documents) && EntriesFollowDocuments(DocMap(documents), entries)
    requires forall d :: d in members <==> d in DocMap(documents) && DocMap(documents)[d].kb == kb
    requires NamedByEnds(related)
    requires forall k: Pair | k.0 in members && k.1 in members ::
               var stored := Stored(RelatedTable(env, DocMap(documents), entries));
               (k in related <==> k in stored) && (k in related ==> related[k] == stored[k])
    ensures var part := RelatedTable(env, DocMap(Filter(InKb(kb), documents)), Filter(OfKb(kb), entries));
            && EndsIdentify(part)
            && Cut(Filter(Threshold(minCount, minScore), ReadOrder(related, members)), cap)
               == Cut(EdgeList(part, minCount, Max(minScore, 0.0)), cap)
  {
    var sub, some := DocMap(Filter(InKb(kb), documents)), Filter(OfKb(kb), entries);
    var all, part := RelatedTable(env, DocMap(documents), entries), RelatedTable(env, sub, some);
    DocMapIdentified(Filter(InKb(kb), documents));
    RelatedTableEnds(env, sub, some);
    KbTables(env, documents, entries, kb, members);
    FilteredRead(all, part, related, members, minCount, minScore);
  }

  /** With the score thresholds that requests may carry, which are never negative, the stored copy and the direct
      computation agree. */
  lemma StoredReadAgrees(env: Env, documents: seq<Document>, entries: seq<Entry>, kb: string, members: set<string>,
                         related: map<Pair, Edge>, minCount: int, minScore: real, cap: Cap)
    requires DistinctIds(documents) && EntriesFollowDocuments(DocMap(documents), entries) && minScore >= 0.0
    requires forall d :: d in members <==> d in DocMap(documents) && DocMap(documents)[d].kb == kb
    requires NamedByEnds(related)
    requires forall k: Pair | k.0 in members && k.1 in members ::
               var stored := Stored(RelatedTable(env, DocMap(documents), entries));
               (k in related <==> k in stored) && (k in related ==> related[k] == stored[k])
    ensures var part := RelatedTable(env, DocMap(Filter(InKb(kb), documents)), Filter(OfKb(kb), entries));
            && EndsIdentify(part)
            && Cut(Filter(Threshold(minCount, minScore), ReadOrder(related, members)), cap)
               == Cut(EdgeList(part, minCount, minScore), cap)
  {
    hide RelatedTable, Stored, NamedByEnds, EndsIdentify, EntriesFollowDocuments, DistinctIds, ReadOrder;
    StoredReadIsDirect(env, documents, entries, kb, members, related, minCount, minScore, cap);
  }

  lemma KbTables(env: Env, documents: seq<Document>, entries: seq<Entry>, kb: string, members: set<string>)
    requires DistinctIds(documents) && EntriesFollowDocuments(DocMap(documents), entries)
    requires forall d :: d in members <==> d in DocMap(documents) && DocMap(documents)[d].kb == kb
    ensures var all := RelatedTable(env, DocMap(documents), entries);
            var part := RelatedTable(env, DocMap(Filter(InKb(kb), documents)), Filter(OfKb(kb), entries));
            Within(all, part, members)
  {
    var docs := DocMap(documents);
    var all := RelatedTable(env, docs, entries);
    var part := RelatedTable(env, DocMap(Filter(InKb(kb), documents)), Filter(OfKb(kb), entries));
    forall k: Pair
      ensures k in part <==> k in all && k.0 in members && k.1 in members
      ensures k in part ==> part[k] == all[k] && part[k].edge.sharedCount >= 1
    {
      KbTable(env, documents, entries, kb, k);
      RelatedTableAt(env, docs, entries, k);
      if k in all {
        NonEmptyCatalogs(CatalogOf(env, entries, k.0), CatalogOf(env, entries, k.1));
      }
    }
  }

  /** `part` is `all` restricted to the pairs of members. */
  ghost predicate Within(all: map<Pair, Pairing>, part: map<Pair, Pairing>, members: set<string>) {
    && (forall k: Pair :: k in part <==> k in all && k.0 in members && k.1 in members)
    && (forall k | k in part :: part[k] == all[k] && part[k].edge.sharedCount >= 1)
  }

  lemma FilteredRead(all: map<Pair, Pairing>, part: map<Pair, Pairing>, related: map<Pair, Edge>, members: set<string>,
                     minCount: int, minScore: real)
    requires NamedByEnds(related) && EndsIdentify(part) && Within(all, part, members)
    requires forall k: Pair | k.0 in members && k.1 in members ::
               (k in related <==> k in Stored(all)) && (k in related ==> related[k] == Stored(all)[k])
    ensures Filter(Threshold(minCount, minScore), ReadOrder(related, members))
            == EdgeList(part, minCount, Max(minScore, 0.0))
  {
    var read := ReadOrder(related, members);
    var kept := Filter(Threshold(minCount, minScore), read);
    var direct := Qualifying(part, minCount, Max(minScore, 0.0));
    EdgeOrder(direct);
    SameEdgeSets(all, part, related, members, minCount, minScore);
    FilterIncreasing(Threshold(minCount, minScore), read, EdgeBefore);
    forall e ensures e in Elems(kept) <==> e in direct {
      assert e in Elems(read) <==> e in EdgesAmong(related, members);
    }
    IncreasingUnique(kept, Enumerate(direct, EdgeBefore), EdgeBefore);
  }

  lemma SameEdgeSets(all: map<Pair, Pairing>, part: map<Pair, Pairing>, related: map<Pair, Edge>, members: set<string>,
                     minCount: int, minScore: real)
    requires NamedByEnds(related)
    requires Within(all, part, members)
    requires forall k: Pair | k.0 in members && k.1 in members ::
               (k in related <==> k in Stored(all)) && (k in related ==> related[k] == Stored(all)[k])
    ensures forall e :: e in EdgesAmong(related, members) && Passes(e, minCount, minScore)
                        <==> e in Qualifying(part, minCount, Max(minScore, 0.0))
  {
    forall e | e in EdgesAmong(related, members) && Passes(e, minCount, minScore)
      ensures e in Qualifying(part, minCount, Max(minScore, 0.0))
    {
      var k :| k in related && k.0 in members && k.1 in members && e == related[k];
      assert PassingPair(part, minCount, Max(minScore, 0.0), k);
    }
    forall e | e in Qualifying(part, minCount, Max(minScore, 0.0))
      ensures e in EdgesAmong(related, members) && Passes(e, minCount, minScore)
    {
      var k :| k in part && PassingPair(part, minCount, Max(minScore, 0.0), k) && e == part[k].edge;
      assert k in Stored(all);
    }
  }

  // ----- the stored graph

  lemma TableNames(env: Env, docs: map<string, Document>, entries: seq<Entry>, k: Pair)
    requires WellIdentified(docs) && k in RelatedTable(env, docs, entries)
    ensures RelatedTable(env, docs, entries)[k].edge.source == "document:" + k.0
    ensures RelatedTable(env, docs, entries)[k].edge.target == "document:" + k.1
    ensures NodePair(RelatedTable(env, docs, entries)[k].edge) == k
  {
    RelatedTableAt(env, docs, entries, k);
    var p := "document:";
    assert (p + k.0)[|p|..] == k.0 && (p + k.1)[|p|..] == k.1;
  }

  /** `rows` are the stored relationships among `members`, each once. */
  ghost predicate RowsAmong(rows: seq<(Pair, Edge)>, related: map<Pair, Edge>, members: set<string>) {
    && (forall i, j | 0 <= i < j < |rows| :: rows[i].0 != rows[j].0)
    && (forall r | r in rows :: r.0 in related && r.0.0 in members && r.0.1 in members && r.1 == related[r.0])
    && (forall k | k in related && k.0 in members && k.1 in members :: (k, related[k]) in rows)
  }

  lemma NoRows(members: set<string>)
    ensures RowsAmong([], map[], members)
  {
  }

  lemma RowRead(rows: seq<(Pair, Edge)>, read: map<Pair, Edge>, members: set<string>, k: Pair, e: Edge)
    requires RowsAmong(rows, read, members) && k !in read
    ensures RowsAmong(if k.0 in members && k.1 in members then rows + [(k, e)] else rows, read[k := e], members)
  {
    assert forall i | 0 <= i < |rows| :: rows[i] in rows;
  }

  lemma SortedRows(rows: seq<(Pair, Edge)>, related: map<Pair, Edge>, members: set<string>)
    requires NamedByEnds(related) && RowsAmong(rows, related, members)
    ensures Mapped(RowEdge, Sort(rows, RowBefore)) == ReadOrder(related, members)
  {
    RowOrderIsEdgeOrder();
    SortMapped(RowEdge, rows, RowBefore, EdgeBefore);
    RowEdges(rows, related, members);
    RowsDistinct(rows, related, members);
    NamedOnePerPair(related, members);
    EdgeOrder(EdgesAmong(related, members));
    SortEnumerates(Mapped(RowEdge, rows), EdgeBefore);
  }

  lemma RowEdges(rows: seq<(Pair, Edge)>, related: map<Pair, Edge>, members: set<string>)
    requires NamedByEnds(related) && RowsAmong(rows, related, members)
    ensures Elems(Mapped(RowEdge, rows)) == EdgesAmong(related, members)
  {
    var edges := Mapped(RowEdge, rows);
    forall i | 0 <= i < |rows| ensures edges[i] == related[rows[i].0] && edges[i] in EdgesAmong(related, members) {
      assert rows[i] in rows;
    }
    forall e | e in EdgesAmong(related, members) ensures e in edges {
      var k :| k in related && k.0 in members && k.1 in members && related[k] == e;
      assert (k, related[k]) in rows;
      var i :| 0 <= i < |rows| && rows[i] == (k, related[k]);
      assert edges[i] == e;
    }
  }

  lemma RowsDistinct(rows: seq<(Pair, Edge)>, related: map<Pair, Edge>, members: set<string>)
    requires NamedByEnds(related) && RowsAmong(rows, related, members)
    ensures Distinct(Mapped(RowEdge, rows))
  {
    var edges := Mapped(RowEdge, rows);
    forall i, j | 0 <= i < j < |edges| ensures edges[i] != edges[j] {
      assert rows[i] in rows && rows[j] in rows;
      SameSuffix("document:", rows[i].0.0, rows[j].0.0);
      SameSuffix("document:", rows[i].0.1, rows[j].0.1);
    }
  }

  lemma SameSuffix(p: string, x: string, y: string)
    ensures p + x == p + y ==> x == y
  {
    assert (p + x)[|p|..] == x && (p + y)[|p|..] == y;
  }

  function Existing(stored: map<Pair, Edge>, nodes: set<string>): map<Pair, Edge> {
    map k | k in stored && k.0 in nodes && k.1 in nodes :: stored[k]
  }

  /** What the first `i` rows merge. */
  ghost predicate Merged(stored: map<Pair, Edge>, nodes: set<string>, rows: seq<(Pair, Edge)>, done: map<Pair, Edge>,
                         i: nat)
  {
    && (forall k | k in done :: k in Existing(stored, nodes) && done[k] == stored[k])
    && (forall j | 0 <= j < i && j < |rows| && rows[j].0 in Existing(stored, nodes) :: rows[j].0 in done)
  }

  lemma NothingMerged(stored: map<Pair, Edge>, nodes: set<string>, rows: seq<(Pair, Edge)>)
    ensures Merged(stored, nodes, rows, map[], 0)
  {
  }

  lemma MergedNext(stored: map<Pair, Edge>, nodes: set<string>, rows: seq<(Pair, Edge)>, done: map<Pair, Edge>, i: nat)
    requires Rows(stored, rows) && i < |rows| && Merged(stored, nodes, rows, done, i)
    ensures var (k, e) := rows[i];
            Merged(stored, nodes, rows, if k.0 in nodes && k.1 in nodes then done[k := e] else done, i + 1)
  {
    hide NamedByEnds;
    assert rows[i] in rows;
  }

  lemma AllMerged(stored: map<Pair, Edge>, nodes: set<string>, rows: seq<(Pair, Edge)>, done: map<Pair, Edge>)
    requires Rows(stored, rows) && Merged(stored, nodes, rows, done, |rows|)
    ensures done == Existing(stored, nodes)
  {
    hide NamedByEnds;
    forall k | k in Existing(stored, nodes) ensures k in done {
      assert (k, stored[k]) in rows;
    }
  }

  /** MERGE of every row whose two documents exist. */
  method MergeRows(base: map<Pair, Edge>, nodes: set<string>, rows: seq<(Pair, Edge)>, ghost stored: map<Pair, Edge>)
    returns (r: map<Pair, Edge>)
    requires Rows(stored, rows)
    ensures r == base + Existing(stored, nodes)
  {
    hide Merged, Rows, Existing;
    r := base;
    ghost var done: map<Pair, Edge> := map[];
    NothingMerged(stored, nodes, rows);
    for i := 0 to |rows|
      invariant r == base + done && Merged(stored, nodes, rows, done, i)
    {
      var (k, e) := rows[i];
      MergedNext(stored, nodes, rows, done, i);
      if k.0 in nodes && k.1 in nodes {
        r, done := r[k := e], done[k := e];
      }
    }
    AllMerged(stored, nodes, rows, done);
  }

  lemma MergedRows(base: map<Pair, Edge>, stored: map<Pair, Edge>, rows: seq<(Pair, Edge)>, nodes: set<string>)
    requires NamedByEnds(base) && Rows(stored, rows)
    ensures NamedByEnds(base + Existing(stored, nodes))
  {
  }

  lemma NamedPart(all: map<Pair, Edge>, part: map<Pair, Edge>)
    requires NamedByEnds(all) && forall k | k in part :: k in all && part[k] == all[k]
    ensures NamedByEnds(part)
  {
  }

  class GraphStore {
    var contains: map<string, string>  // document -> knowledge base (CONTAINS)
    var owner: map<string, int>        // knowledge base -> user (OWNS)
    var related: map<Pair, Edge>       // RELATED, with its metadata

    ghost predicate Valid()
      reads this
    {
      NamedByEnds(related)
    }

    predicate Owned(user: int, d: string)
      reads this
    {
      d in contains && contains[d] in owner && owner[contains[d]] == user
    }

    ghost function Members(kb: string): set<string>
      reads this
    {
      set d | d in contains && contains[d] == kb
    }

    /** The stored graph knows exactly the listed documents of the user, under their knowledge bases. */
    ghost predicate Mirrors(user: int, docs: map<string, Document>)
      reads this
    {
      && (forall d | d in docs :: d in contains && contains[d] == docs[d].kb && Owned(user, d))
      && (forall d | Owned(user, d) :: d in docs)
    }

    /** Replaces the relationships of the user's documents by the freshly computed ones; others stay. */
    method Rebuild(env: Env, user: int, documents: seq<Document>, entries: seq<Entry>)
      requires Valid()
      modifies this`related
      ensures Valid()
      ensures related
              == old(Others(user)) + Existing(Stored(RelatedTable(env, DocMap(documents), entries)), contains.Keys)
    {
      RebuildRows(env, documents, entries);
      var edges := BuildRelatedEdges(env, documents, entries, 1, 0.0, Unlimited);
      hide RelatedTable, Stored, Rows, NamedByEnds;
      NamedPart(related, Others(user));
      MergedRows(Others(user), Stored(RelatedTable(env, DocMap(documents), entries)), Mapped(RowOf, Edges(edges)),
                 contains.Keys);
      ReplaceOwned(user, Mapped(RowOf, Edges(edges)), Stored(RelatedTable(env, DocMap(documents), entries)));
    }

    /** The relationships that no document of the user takes part in. */
    function Others(user: int): map<Pair, Edge>
      reads this
    {
      map k | k in related && !Owned(user, k.0) && !Owned(user, k.1) :: related[k]
    }

    /** Deletes the relationships of the user's documents, then merges the new rows. */
    method ReplaceOwned(user: int, rows: seq<(Pair, Edge)>, ghost stored: map<Pair, Edge>)
      requires Rows(stored, rows)
      modifies this`related
      ensures related == old(Others(user)) + Existing(stored, contains.Keys)
    {
      related := Others(user);
      related := MergeRows(related, contains.Keys, rows, stored);
    }

    /** The relationship rows of one knowledge base, ordered by the query, filtered and truncated. */
    method ReadKnowledgeBase(kb: string, minCount: int, minScore: real, cap: Cap) returns (edges: seq<Edge>)
      requires Valid()
      ensures edges == Cut(Filter(Threshold(minCount, minScore), ReadOrder(related, Members(kb))), cap)
      ensures BestOf(edges, EdgesAmong(related, Members(kb)), minCount, minScore, cap)
    {
      var rows: seq<(Pair, Edge)> := [];
      var left := related.Keys;
      ghost var read: map<Pair, Edge> := map[];
      hide NamedByEnds, RowsAmong, Filter, Cut, ReadOrder, BestOf, EdgesAmong;
      NoRows(Members(kb));
      while left != {}
        invariant left <= related.Keys && read.Keys == related.Keys - left
        invariant forall k | k in read :: read[k] == related[k]
        invariant RowsAmong(rows, read, Members(kb))
        decreases left
      {
        var k :| k in left;
        left := left - {k};
        RowRead(rows, read, Members(kb), k, related[k]);
        read := read[k := related[k]];
        if k.0 in contains && contains[k.0] == kb && k.1 in contains && contains[k.1] == kb {
          rows := rows + [(k, related[k])];
        }
      }
      assert read == related;
      SortedRows(rows, related, Members(kb));
      var ordered := Mapped(RowEdge, Sort(rows, RowBefore));
      ReadKeepsBest(related, Members(kb), minCount, minScore, cap);
      edges := Cut(Filter(Threshold(minCount, minScore), ordered), cap);
    }

    /** A rebuild followed by a read of any knowledge base returns what a direct computation returns. */
    method RebuildAndRead(env: Env, user: int, documents: seq<Document>, entries: seq<Entry>,
                          kb: string, minCount: int, minScore: real, cap: Cap)
      returns (edges: seq<Edge>)
      requires Valid() && Mirrors(user, DocMap(documents)) && kb in owner && owner[kb] == user
      requires DistinctIds(documents) && EntriesFollowDocuments(DocMap(documents), entries)
      modifies this`related
      ensures Valid()
      ensures var part := RelatedTable(env, DocMap(Filter(InKb(kb), documents)), Filter(OfKb(kb), entries));
              && EndsIdentify(part) && edges == Cut(EdgeList(part, minCount, Max(minScore, 0.0)), cap)
              && (minScore >= 0.0 ==> edges == Cut(EdgeList(part, minCount, minScore), cap))
    {
      ghost var stored := Stored(RelatedTable(env, DocMap(documents), entries));
      ghost var others := Others(user);
      hide RelatedTable, Stored, NamedByEnds, EndsIdentify;
      assert forall k | k in others :: k.0 !in Members(kb) by {
        assert forall d | d in Members(kb) :: Owned(user, d);
      }
      Rebuild(env, user, documents, entries);
      AmongMembers(others, stored, contains.Keys, Members(kb));
      edges := ReadKnowledgeBase(kb, minCount, minScore, cap);
      StoredReadIsDirect(env, documents, entries, kb, Members(kb), related, minCount, minScore, cap);
    }
  }

  lemma AmongMembers(base: map<Pair, Edge>, stored: map<Pair, Edge>, nodes: set<string>, members: set<string>)
    requires members <= nodes && forall k | k in base :: k.0 !in members
    ensures var r := base + Existing(stored, nodes);
            forall k: Pair | k.0 in members && k.1 in members :: (k in r <==> k in stored)
                && (k in r ==> r[k] == stored[k])
  {
  }

  /** The row sent for an edge: the two document identifiers and the metadata. */
  function RowOf(e: Edge): (Pair, Edge) {
    (NodePair(e), e)
  }

  /** `rows` lists the relationships of `stored`. */
  ghost predicate Rows(stored: map<Pair, Edge>, rows: seq<(Pair, Edge)>) {
    && NamedByEnds(stored)
    && (forall r | r in rows :: r.0 in stored && stored[r.0] == r.1)
    && (forall k | k in stored :: (k, stored[k]) in rows)
  }

  ghost predicate NamesPairs(table: map<Pair, Pairing>) {
    forall k | k in table :: && table[k].edge.source == "document:" + k.0 && table[k].edge.target == "document:" + k.1
                             && NodePair(table[k].edge) == k
  }

  lemma ListedIffQualifying(table: map<Pair, Pairing>, e: Edge)
    requires EndsIdentify(table)
    ensures e in EdgeList(table, 1, 0.0) <==> e in Qualifying(table, 1, 0.0)
  {
    assert e in Elems(EdgeList(table, 1, 0.0)) <==> e in Qualifying(table, 1, 0.0);
  }

  lemma ListedIsStored(table: map<Pair, Pairing>, e: Edge)
    requires NamesPairs(table) && EndsIdentify(table) && e in EdgeList(table, 1, 0.0)
    ensures NodePair(e) in Stored(table) && Stored(table)[NodePair(e)] == e
  {
    ListedIffQualifying(table, e);
    hide EdgeList, EndsIdentify;
  }

  lemma StoredIsListed(table: map<Pair, Pairing>, k: Pair)
    requires NamesPairs(table) && EndsIdentify(table) && k in Stored(table)
    ensures Stored(table)[k] in EdgeList(table, 1, 0.0) && NodePair(Stored(table)[k]) == k
  {
    assert PassingPair(table, 1, 0.0, k);
    ListedIffQualifying(table, table[k].edge);
    hide EdgeList, EndsIdentify;
  }

  lemma StoredNamed(table: map<Pair, Pairing>)
    requires NamesPairs(table)
    ensures NamedByEnds(Stored(table))
  {
  }

  lemma StoredRows(table: map<Pair, Pairing>)
    requires NamesPairs(table) && EndsIdentify(table)
    ensures Rows(Stored(table), Mapped(RowOf, EdgeList(table, 1, 0.0)))
  {
    hide EdgeList, EndsIdentify, Qualifying, NamesPairs, Stored, NamedByEnds, PassingPair;
    StoredNamed(table);
    var edges := EdgeList(table, 1, 0.0);
    var rows := Mapped(RowOf, edges);
    forall r | r in rows ensures r.0 in Stored(table) && Stored(table)[r.0] == r.1 {
      var i :| 0 <= i < |rows| && rows[i] == r;
      ListedIsStored(table, edges[i]);
    }
    forall k | k in Stored(table) ensures (k, Stored(table)[k]) in rows {
      StoredIsListed(table, k);
      var i :| 0 <= i < |edges| && edges[i] == Stored(table)[k];
      assert rows[i] == (k, Stored(table)[k]);
    }
  }

  /** A rebuild stores the related pairs. */
  lemma RebuildRows(env: Env, documents: seq<Document>, entries: seq<Entry>)
    ensures EndsIdentify(RelatedTable(env, DocMap(documents), entries))
    ensures Rows(Stored(RelatedTable(env, DocMap(documents), entries)),
                 Mapped(RowOf, EdgeList(RelatedTable(env, DocMap(documents), entries), 1, 0.0)))
  {
    var table := RelatedTable(env, DocMap(documents), entries);
    DocMapIdentified(documents);
    RelatedTableEnds(env, DocMap(documents), entries);
    forall k | k in table
      ensures table[k].edge.source == "document:" + k.0 && table[k].edge.target == "document:" + k.1
      ensures NodePair(table[k].edge) == k
    {
      TableNames(env, DocMap(documents), entries, k);
    }
    StoredRows(table);
  }
}
