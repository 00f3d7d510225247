/** Graph-assisted retrieval compared with plain retrieval (app/mneme/domains/graph/rag.py): memory entries that match
    the query are seeds, related documents of the seeds' documents are expansions, and both become ranked contexts.
    An identifier or chunk that is missing is the empty string. */
module GraphRag {
  import opened Sorting
  import opened RetrievalMetrics
  import Text
  import Related = RelatedDocuments
  import Index = RelatedIndex
  import Meaning = RelatedMeaning

  datatype Entry = Entry(id: string, documentId: string, kb: string, chunkId: string, name: string, kind: string,
                         importance: real)

  /** `matches(e, term)`: the lower-case term occurs in the entry's normalised text. */
  datatype Env = Env(graph: Related.Env, matches: (Entry, string) -> bool)

  datatype Seed = Seed(entryId: string, name: string, documentId: string, chunkId: string, score: real,
                       importance: real)

  /** The two documents of an edge, and what expansions are ranked by. */
  datatype Link = Link(source: string, target: string, score: real, sharedCount: nat)

  datatype Expansion = Expansion(link: Link, rank: nat, evidence: seq<string>)

  datatype Context = Context(isSeed: bool, documentId: string, chunkId: string, entryIds: seq<string>, score: real)

  // ----- seeds

  function MatchedTerms(env: Env, terms: seq<string>, e: Entry): nat {
    |Filter((t: string) => env.matches(e, t), terms)|
  }

  function IsMatch(env: Env, terms: seq<string>): Entry -> bool {
    (e: Entry) => MatchedTerms(env, terms, e) > 0
  }

  function RawSeedScore(matched: nat, terms: nat, importance: real): real {
    var share := matched as real / (if terms > 1 then terms else 1) as real;
    Related.Min(share, 1.0) * 0.7 + Related.Min(importance, 1.0) * 0.3
  }

  function SeedOf(env: Env, terms: seq<string>): Entry -> Seed {
    (e: Entry) => Seed(e.id, e.name, e.documentId, e.chunkId,
                       env.graph.round4(RawSeedScore(MatchedTerms(env, terms, e), |terms|, e.importance)), e.importance)
  }

  /** Two keys compared one after the other. */
  predicate LexLess(a: string, b: string, c: string, d: string) {
    if a != b then StrLess(a, b) else StrLess(c, d)
  }

  predicate SeedBefore(x: Seed, y: Seed) {
    if x.score != y.score then x.score > y.score
    else if x.importance != y.importance then x.importance > y.importance
    else LexLess(x.name, y.name, x.entryId, y.entryId)
  }

  function AllSeeds(env: Env, entries: seq<Entry>, terms: seq<string>): seq<Seed> {
    Mapped(SeedOf(env, terms), Filter(IsMatch(env, terms), entries))
  }

  method FindSeeds(env: Env, entries: seq<Entry>, terms: seq<string>, limit: int) returns (seeds: seq<Seed>)
    ensures seeds == Slice(Sort(AllSeeds(env, entries, terms), SeedBefore), limit)
    ensures BestMatches(env, entries, terms, limit, seeds)
    ensures limit >= 0 ==> |seeds| <= limit
  {
    var found: seq<Seed> := [];
    for i := 0 to |entries|
      invariant found == AllSeeds(env, entries[..i], terms)
    {
      OneMoreSeed(env, entries, terms, i);
      if MatchedTerms(env, terms, entries[i]) > 0 {
        found := found + [SeedOf(env, terms)(entries[i])];
      }
    }
    assert entries[..|entries|] == entries;
    seeds := Slice(Sort(found, SeedBefore), limit);
    SeedsAreBest(env, entries, terms, limit);
  }

  lemma OneMoreSeed(env: Env, entries: seq<Entry>, terms: seq<string>, i: nat)
    requires i < |entries|
    ensures AllSeeds(env, entries[..i + 1], terms) == AllSeeds(env, entries[..i], terms)
            + if MatchedTerms(env, terms, entries[i]) > 0 then [SeedOf(env, terms)(entries[i])] else []
  {
    FilteredOneMore(IsMatch(env, terms), SeedOf(env, terms), entries, i);
  }

  lemma FilteredOneMore<A(!new), B>(p: A -> bool, f: A -> B, s: seq<A>, i: nat)
    requires i < |s|
    ensures Mapped(f, Filter(p, s[..i + 1])) == Mapped(f, Filter(p, s[..i])) + if p(s[i]) then [f(s[i])] else []
  {
    TakeOneMore(s, i);
    FilterAppend(p, s[..i], [s[i]]);
    assert [s[i]][1..] == [];
    MappedAppend(f, Filter(p, s[..i]), [s[i]]);
  }

  lemma SeedOrder()
    ensures WeakOrder(SeedBefore)
  {
    forall x, y | SeedBefore(x, y) ensures !SeedBefore(y, x) {
      StrTrichotomy(x.name, y.name);
      StrTrichotomy(x.entryId, y.entryId);
    }
    forall x, y, z | !SeedBefore(y, x) && !SeedBefore(z, y) ensures !SeedBefore(z, x) {
      if !LexLess(y.name, x.name, y.entryId, x.entryId) && !LexLess(z.name, y.name, z.entryId, y.entryId) {
        NamesTransitive(x.name, y.name, z.name, x.entryId, y.entryId, z.entryId);
      }
    }
  }

  lemma NamesTransitive(a: string, b: string, c: string, x: string, y: string, z: string)
    requires !LexLess(b, a, y, x) && !LexLess(c, b, z, y)
    ensures !LexLess(c, a, z, x)
  {
    if a == b == c {
      StrNotLessTransitive(x, y, z);
    } else if a != b && b != c {
      StrNotLessTransitive(a, b, c);
      StrTrichotomy(a, b);
      StrTrichotomy(b, c);
    }
  }

  /** Which of the terms the entry matches. */
  function Matching(env: Env, terms: seq<string>, e: Entry): set<nat> {
    set i: nat | i < |terms| && env.matches(e, terms[i])
  }

  /** What the score of a match is rounded from: seven parts for the share of the terms that it matches, three for its
      importance, which counts up to 1. */
  function MatchScore(env: Env, terms: seq<string>, e: Entry): real
    requires terms != []
  {
    0.7 * (|Matching(env, terms, e)| as real / |terms| as real)
    + 0.3 * (if e.importance <= 1.0 then e.importance else 1.0)
  }

  /** Seed `s` is the match of entry `e`. */
  ghost predicate SeedTells(env: Env, terms: seq<string>, e: Entry, s: Seed) {
    && s.entryId == e.id && s.name == e.name && s.documentId == e.documentId && s.chunkId == e.chunkId
    && s.importance == e.importance && Matching(env, terms, e) != {} && terms != []
    && s.score == env.graph.round4(MatchScore(env, terms, e))
  }

  /** `x` may stand before `y`: the greater score, then the greater importance, then the smaller name, then the smaller
      identifier. */
  predicate SeedOutranks(x: Seed, y: Seed) {
    && x.score >= y.score
    && (x.score == y.score ==> x.importance >= y.importance)
    && (x.score == y.score && x.importance == y.importance ==>
          StrLess(x.name, y.name) || (x.name == y.name && !StrLess(y.entryId, x.entryId)))
  }

  /** The seeds are matches of entries, best first; a match is left out only when the limit is used up, and then it
      outranks no seed. */
  ghost predicate BestMatches(env: Env, entries: seq<Entry>, terms: seq<string>, limit: int, seeds: seq<Seed>) {
    && (forall i, j | 0 <= i < j < |seeds| :: SeedOutranks(seeds[i], seeds[j]))
    && (forall s | s in seeds :: exists e :: e in entries && SeedTells(env, terms, e, s))
    && (forall e, s | e in entries && SeedTells(env, terms, e, s) && s !in seeds ::
          limit < |entries| && (limit >= 0 ==> |seeds| == limit) && forall k | k in seeds :: SeedOutranks(k, s))
  }

  lemma NotBeforeOutranks(x: Seed, y: Seed)
    requires !SeedBefore(y, x)
    ensures SeedOutranks(x, y)
  {
    StrTrichotomy(x.name, y.name);
  }

  lemma {:induction false} MatchedIsMatching(env: Env, terms: seq<string>, e: Entry)
    ensures MatchedTerms(env, terms, e) == |Matching(env, terms, e)| <= |terms|
  {
    if terms == [] {
      assert Matching(env, terms, e) == {};
    } else {
      var n := |terms| - 1;
      assert terms == terms[..n] + [terms[n]];
      MatchedIsMatching(env, terms[..n], e);
      OneMoreMatch(env, terms[..n], terms[n], e);
      hide MatchedTerms;
      assert Matching(env, terms, e) == Matching(env, terms[..n], e) + if env.matches(e, terms[n]) then {n} else {};
    }
  }

  lemma OneMoreMatch(env: Env, front: seq<string>, last: string, e: Entry)
    ensures MatchedTerms(env, front + [last], e) == MatchedTerms(env, front, e) + if env.matches(e, last) then 1 else 0
  {
    var p := (t: string) => env.matches(e, t);
    FilterAppend(p, front, [last]);
    assert [last][1..] == [];
    assert Filter(p, [last]) == if p(last) then [last] else [];
  }

  lemma SeedIsTold(env: Env, terms: seq<string>, e: Entry, s: Seed)
    ensures IsMatch(env, terms)(e) && s == SeedOf(env, terms)(e) <==> SeedTells(env, terms, e, s)
  {
    MatchedIsMatching(env, terms, e);
    hide MatchedTerms, Matching;
    var n := MatchedTerms(env, terms, e);
    if terms != [] {
      assert n as real / |terms| as real <= 1.0;
      assert RawSeedScore(n, |terms|, e.importance) == MatchScore(env, terms, e);
    }
  }

  /** All seeds are the matches of the entries. */
  lemma SeedOfEntry(env: Env, entries: seq<Entry>, terms: seq<string>, s: Seed)
    ensures s in AllSeeds(env, entries, terms) <==> exists e :: e in entries && SeedTells(env, terms, e, s)
    ensures |AllSeeds(env, entries, terms)| <= |entries|
  {
    var found := Filter(IsMatch(env, terms), entries);
    hide SeedTells, Filter;
    if s in AllSeeds(env, entries, terms) {
      var i :| 0 <= i < |found| && SeedOf(env, terms)(found[i]) == s;
      assert found[i] in found;
      SeedIsTold(env, terms, found[i], s);
    }
    if e :| e in entries && SeedTells(env, terms, e, s) {
      SeedIsTold(env, terms, e, s);
      assert e in found;
      var i :| 0 <= i < |found| && found[i] == e;
      assert AllSeeds(env, entries, terms)[i] == s;
    }
  }

  lemma SeedsAreBest(env: Env, entries: seq<Entry>, terms: seq<string>, limit: int)
    ensures BestMatches(env, entries, terms, limit, Slice(Sort(AllSeeds(env, entries, terms), SeedBefore), limit))
  {
    hide SeedBefore, SeedOutranks, SeedTells, AllSeeds, Sort, Slice;
    var all := AllSeeds(env, entries, terms);
    var seeds := Slice(Sort(all, SeedBefore), limit);
    SeedOrder();
    SliceKeepsBest(all, SeedBefore, limit);
    forall x, y | !SeedBefore(y, x) ensures SeedOutranks(x, y) {
      NotBeforeOutranks(x, y);
    }
    forall s ensures s in all <==> exists e :: e in entries && SeedTells(env, terms, e, s) {
      SeedOfEntry(env, entries, terms, s);
    }
    forall e, s | e in entries && SeedTells(env, terms, e, s) && s !in seeds
      ensures limit < |entries| && (limit >= 0 ==> |seeds| == limit)
    {
      SeedOfEntry(env, entries, terms, s);
    }
  }

  /** Rounding to four digits: it respects the order and is off by at most half of the last digit. */
  ghost predicate ToFourDigits(round: real -> real) {
    && (forall x, y | x <= y :: round(x) <= round(y))
    && (forall x :: x - 0.00005 <= round(x) <= x + 0.00005)
  }

  /** With fewer than 7,000 terms, so that one term more is seen in the rounded score, an entry that matches more of the
      terms and is no less important is never left out in favour of one that matches fewer. */
  lemma BetterMatchIsKept(env: Env, entries: seq<Entry>, terms: seq<string>, limit: int, seeds: seq<Seed>,
                          e: Entry, s: Seed, f: Entry, t: Seed)
    requires BestMatches(env, entries, terms, limit, seeds) && 0 < |terms| < 7000 && ToFourDigits(env.graph.round4)
    requires e in entries && SeedTells(env, terms, e, s) && SeedTells(env, terms, f, t) && t in seeds
    requires |Matching(env, terms, e)| > |Matching(env, terms, f)| && e.importance >= f.importance
    ensures s in seeds
  {
    var m, k, n := |Matching(env, terms, e)| as real, |Matching(env, terms, f)| as real, |terms| as real;
    MoreShare(m, k, n);
    assert 0.7 / n > 0.0001;
    assert MatchScore(env, terms, f) + 0.0001 < MatchScore(env, terms, e);
    assert s.score > t.score;
  }

  lemma MoreShare(m: real, k: real, n: real)
    requires m >= k + 1.0 && n >= 1.0
    ensures 0.7 * (k / n) + 0.7 / n <= 0.7 * (m / n)
  {
    assert m / n >= (k + 1.0) / n == k / n + 1.0 / n;
  }

  /** No seed that was cut ranks before one that was kept. */
  lemma BestSeedsAreKept(env: Env, entries: seq<Entry>, terms: seq<string>, limit: nat, i: nat, j: nat)
    requires i < limit <= j < |AllSeeds(env, entries, terms)|
    ensures SeedOutranks(Slice(Sort(AllSeeds(env, entries, terms), SeedBefore), limit)[i],
                         Sort(AllSeeds(env, entries, terms), SeedBefore)[j])
  {
    hide SeedBefore, SeedOutranks;
    SeedOrder();
    SortOrders(AllSeeds(env, entries, terms), SeedBefore);
    NotBeforeOutranks(Slice(Sort(AllSeeds(env, entries, terms), SeedBefore), limit)[i],
                      Sort(AllSeeds(env, entries, terms), SeedBefore)[j]);
  }

  // ----- expansions

  function Plain(e: Entry): Related.Entry {
    Related.Entry(e.documentId, e.kb, e.name, e.kind, e.importance)
  }

  const DOCUMENT := "document:"

  function DocumentId(node: string): string {
    if DOCUMENT <= node then node[|DOCUMENT|..] else node
  }

  function LinkOf(e: Related.Edge): Link {
    Link(DocumentId(e.source), DocumentId(e.target), e.score, e.sharedCount)
  }

  function LinkIn(x: Expansion): Link {
    x.link
  }

  predicate LinkBefore(x: Link, y: Link) {
    if x.score != y.score then x.score > y.score
    else if x.sharedCount != y.sharedCount then x.sharedCount > y.sharedCount
    else LexLess(x.source, y.source, x.target, y.target)
  }

  predicate ExpansionBefore(x: Expansion, y: Expansion) {
    LinkBefore(x.link, y.link)
  }

  function Touches(seedDocuments: set<string>): Link -> bool {
    (l: Link) => l.source in seedDocuments || l.target in seedDocuments
  }

  function LinksOf(seedDocuments: set<string>, edges: seq<Related.Edge>): seq<Link> {
    Filter(Touches(seedDocuments), Mapped(LinkOf, edges))
  }

  function PayloadSignature(g: Related.Env, p: Related.Payload): Related.Signature {
    (g.normalize(p.name), g.normalize(p.kind))
  }

  function IsEvidence(g: Related.Env, l: Link, shared: seq<Related.Payload>): Entry -> bool {
    (e: Entry) => e.documentId in {l.source, l.target}
                  && exists p :: p in shared && PayloadSignature(g, p) == Related.SignatureOf(g, Plain(e))
  }

  function IdOf(e: Entry): string {
    e.id
  }

  function EvidenceIds(g: Related.Env, entries: seq<Entry>, l: Link, shared: seq<Related.Payload>): seq<string> {
    Dedupe(Mapped(IdOf, Filter(IsEvidence(g, l, shared), entries)))
  }

  /** The memories that the entries of document `d` name, by normalised name and type. */
  ghost function MemoriesOf(env: Env, entries: seq<Entry>, d: string): set<Related.Signature> {
    set e | e in entries && e.documentId == d && env.graph.normalize(e.name) != ""
      :: (env.graph.normalize(e.name), env.graph.normalize(e.kind))
  }

  /** The memories that both documents of the link name. */
  ghost function SharedBy(env: Env, entries: seq<Entry>, l: Link): set<Related.Signature> {
    MemoriesOf(env, entries, l.source) * MemoriesOf(env, entries, l.target)
  }

  /** The link joins two documents that share a memory, the smaller identifier first, and counts what they share. */
  ghost predicate Joins(env: Env, documents: seq<Related.Document>, entries: seq<Entry>, l: Link) {
    && l.source in Related.DocMap(documents) && l.target in Related.DocMap(documents) && StrLess(l.source, l.target)
    && l.sharedCount == |SharedBy(env, entries, l)| >= 1
  }

  ghost function CatalogOf(env: Env, entries: seq<Entry>, d: string): Related.Catalog {
    Related.CatalogOf(env.graph, Mapped(Plain, entries), d)
  }

  lemma MemoriesAreMentioned(env: Env, entries: seq<Entry>, d: string)
    ensures Meaning.Mentioned(env.graph, Mapped(Plain, entries), d) == MemoriesOf(env, entries, d)
  {
    var g, plain := env.graph, Mapped(Plain, entries);
    forall s | s in Meaning.Mentioned(g, plain, d) ensures s in MemoriesOf(env, entries, d) {
      var p :| && p in plain && p.documentId == d && g.normalize(p.name) != ""
               && s == (g.normalize(p.name), g.normalize(p.kind));
      var i :| 0 <= i < |plain| && plain[i] == p;
      assert entries[i] in entries;
    }
    forall s | s in MemoriesOf(env, entries, d) ensures s in Meaning.Mentioned(g, plain, d) {
      var e :| && e in entries && e.documentId == d && g.normalize(e.name) != ""
               && s == (g.normalize(e.name), g.normalize(e.kind));
      var i :| 0 <= i < |entries| && entries[i] == e;
      assert plain[i] in plain && plain[i] == Plain(e);
    }
  }

  /** The catalogues of the two documents share the same. */
  lemma CatalogsShare(env: Env, entries: seq<Entry>, l: Link)
    ensures Related.Shared(CatalogOf(env, entries, l.source), CatalogOf(env, entries, l.target))
            == SharedBy(env, entries, l)
  {
    MemoriesAreMentioned(env, entries, l.source);
    MemoriesAreMentioned(env, entries, l.target);
    Meaning.SharedIsSharedBy(env.graph, Mapped(Plain, entries), (l.source, l.target));
    hide Meaning.Mentioned, MemoriesOf, Related.CatalogOf, Mapped;
  }

  /** An entry of one of the two documents with a memory that both share. */
  ghost predicate Supports(env: Env, entries: seq<Entry>, l: Link, e: Entry) {
    && e in entries && e.documentId in {l.source, l.target}
    && (env.graph.normalize(e.name), env.graph.normalize(e.kind)) in SharedBy(env, entries, l)
  }

  /** The link joins two related documents, and its evidence is of entries that support it - of all such entries with
      an identifier, unless the documents share more than the eight memories an edge shows. */
  ghost predicate Sound(env: Env, documents: seq<Related.Document>, entries: seq<Entry>, x: Expansion) {
    && Joins(env, documents, entries, x.link)
    && (forall id | id in x.evidence :: exists e :: Supports(env, entries, x.link, e) && e.id == id)
    && (x.link.sharedCount <= 8 ==>
          forall e | Supports(env, entries, x.link, e) && e.id != "" :: e.id in x.evidence)
  }

  /** A catalogue's payload has the signature it is listed under. */
  lemma CatalogSignature(g: Related.Env, entries: seq<Related.Entry>, d: string, s: Related.Signature)
    requires s in Related.CatalogOf(g, entries, d)
    ensures PayloadSignature(g, Related.CatalogOf(g, entries, d)[s]) == s
  {
    Related.CatalogIsFirstBest(g, entries, d, s);
  }

  /** The memories shown for the signatures `sigs`. */
  ghost predicate Shows(env: Env, entries: seq<Entry>, l: Link, shared: seq<Related.Payload>,
                        sigs: seq<Related.Signature>) {
    var a, b := CatalogOf(env, entries, l.source), CatalogOf(env, entries, l.target);
    Related.Samples(shared, Related.SharedItems(env.graph, a, b, Related.Shared(a, b)), sigs)
  }

  lemma ShownSignature(env: Env, entries: seq<Entry>, l: Link, shared: seq<Related.Payload>,
                       sigs: seq<Related.Signature>,
                       i: nat)
    requires Shows(env, entries, l, shared, sigs) && i < |sigs|
    ensures |shared| == |sigs| && sigs[i] in SharedBy(env, entries, l)
            && PayloadSignature(env.graph, shared[i]) == sigs[i]
  {
    CatalogsShare(env, entries, l);
    hide Related.CatalogOf, Mapped, SharedBy;
    CatalogSignature(env.graph, Mapped(Plain, entries), l.source, sigs[i]);
    CatalogSignature(env.graph, Mapped(Plain, entries), l.target, sigs[i]);
  }

  /** A signature is shown exactly if it is one of `sigs`. */
  lemma ShownExactly(env: Env, entries: seq<Entry>, l: Link, shared: seq<Related.Payload>, sigs: seq<Related.Signature>,
                     s: Related.Signature)
    requires Shows(env, entries, l, shared, sigs)
    ensures (exists p :: p in shared && PayloadSignature(env.graph, p) == s) <==> s in sigs
    ensures s in sigs ==> s in SharedBy(env, entries, l)
  {
    hide CatalogOf, PayloadSignature, SharedBy;
    if p :| p in shared && PayloadSignature(env.graph, p) == s {
      assert |shared| == |sigs|;
      var i: nat :| i < |shared| && shared[i] == p;
      ShownSignature(env, entries, l, shared, sigs, i);
    }
    if s in sigs {
      var i: nat :| i < |sigs| && sigs[i] == s;
      ShownSignature(env, entries, l, shared, sigs, i);
      assert shared[i] in shared;
    }
  }

  lemma EvidenceExactly(env: Env, entries: seq<Entry>, l: Link, shared: seq<Related.Payload>,
                        sigs: seq<Related.Signature>,
                        id: string)
    requires Shows(env, entries, l, shared, sigs)
    ensures id in EvidenceIds(env.graph, entries, l, shared)
            <==> id != "" && exists e :: && e in entries && e.id == id && e.documentId in {l.source, l.target}
                                         && Related.SignatureOf(env.graph, Plain(e)) in sigs
  {
    hide Shows;
    forall e ensures IsEvidence(env.graph, l, shared)(e)
                     <==> e.documentId in {l.source, l.target} && Related.SignatureOf(env.graph, Plain(e)) in sigs
    {
      ShownExactly(env, entries, l, shared, sigs, Related.SignatureOf(env.graph, Plain(e)));
    }
    var found := Filter(IsEvidence(env.graph, l, shared), entries);
    hide IsEvidence;
    if id in Mapped(IdOf, found) {
      var i :| 0 <= i < |found| && Mapped(IdOf, found)[i] == id;
      assert found[i] in found;
    }
    if e :| e in found && e.id == id {
      var i :| 0 <= i < |found| && found[i] == e;
      assert Mapped(IdOf, found)[i] == id;
    }
  }

  /** With at most eight shared signatures all are shown. */
  lemma AllShown(env: Env, entries: seq<Entry>, l: Link, shared: seq<Related.Payload>, sigs: seq<Related.Signature>)
    requires Shows(env, entries, l, shared, sigs) && |shared| == |SharedBy(env, entries, l)|
    ensures forall s :: s in sigs <==> s in SharedBy(env, entries, l)
  {
    CatalogsShare(env, entries, l);
    hide CatalogOf, SharedBy;
    ElemsSize(sigs);
    assert Elems(sigs) <= SharedBy(env, entries, l);
    SubsetSize(Elems(sigs), SharedBy(env, entries, l));
    forall s ensures s in sigs <==> s in SharedBy(env, entries, l) {
      assert s in sigs <==> s in Elems(sigs);
    }
  }

  lemma DescribedShows(env: Env, documents: seq<Related.Document>, entries: seq<Entry>, x: Related.Related)
    returns (sigs: seq<Related.Signature>)
    requires Index.Describable(Table(env, documents, entries), x)
    ensures var l := LinkOf(x.edge);
            && Joins(env, documents, entries, l) && Shows(env, entries, l, x.shared, sigs)
            && l.sharedCount == |SharedBy(env, entries, l)| && |x.shared| == Smaller(8, l.sharedCount)
  {
    var docs, plain, l := Related.DocMap(documents), Mapped(Plain, entries), LinkOf(x.edge);
    CatalogsShare(env, entries, l);
    hide Related.CatalogOf, Mapped, SharedBy;
    var table := Table(env, documents, entries);
    var k :| Index.Describes(table, x, k);
    Related.RelatedTableAt(env.graph, docs, plain, k);
    Related.DocMapIdentified(documents);
    assert x.edge.source == DOCUMENT + k.0 && x.edge.target == DOCUMENT + k.1;
    assert (l.source, l.target) == k;
    sigs :| Related.Samples(x.shared, table[k].items, sigs);
  }

  lemma DescribedIsSound(env: Env, documents: seq<Related.Document>, entries: seq<Entry>, x: Related.Related, rank: nat)
    requires Index.Describable(Table(env, documents, entries), x)
    ensures var l := LinkOf(x.edge);
            Sound(env, documents, entries, Expansion(l, rank, EvidenceIds(env.graph, entries, l, x.shared)))
  {
    hide Index.Describable, Joins, Shows, SharedBy, LinkOf, EvidenceIds, Related.Shared;
    var l := LinkOf(x.edge);
    var sigs := DescribedShows(env, documents, entries, x);
    if l.sharedCount <= 8 {
      AllShown(env, entries, l, x.shared, sigs);
    }
    forall id | id in EvidenceIds(env.graph, entries, l, x.shared)
      ensures exists e :: Supports(env, entries, l, e) && e.id == id
    {
      EvidenceExactly(env, entries, l, x.shared, sigs, id);
      var e :| && e in entries && e.id == id && e.documentId in {l.source, l.target}
               && Related.SignatureOf(env.graph, Plain(e)) in sigs;
      ShownExactly(env, entries, l, x.shared, sigs, Related.SignatureOf(env.graph, Plain(e)));
      assert Supports(env, entries, l, e);
    }
    forall e | l.sharedCount <= 8 && Supports(env, entries, l, e) && e.id != ""
      ensures e.id in EvidenceIds(env.graph, entries, l, x.shared)
    {
      EvidenceExactly(env, entries, l, x.shared, sigs, e.id);
    }
  }

  ghost function Table(env: Env, documents: seq<Related.Document>, entries: seq<Entry>)
    : (t: map<Related.Pair, Related.Pairing>)
    ensures Related.EndsIdentify(t)
  {
    Related.DocMapIdentified(documents);
    Related.RelatedTableEnds(env.graph, Related.DocMap(documents), Mapped(Plain, entries));
    Related.RelatedTable(env.graph, Related.DocMap(documents), Mapped(Plain, entries))
  }

  /** The strongest links from a seed's document, with no threshold but one shared signature and a score of 0. */
  ghost function BestLinks(env: Env, documents: seq<Related.Document>, entries: seq<Entry>, seedDocuments: set<string>,
                           maxExpansions: int): seq<Link>
  {
    if seedDocuments == {} || maxExpansions <= 0 then []
    else Slice(Sort(LinksOf(seedDocuments, Related.EdgeList(Table(env, documents, entries), 1, 0.0)), LinkBefore),
               maxExpansions)
  }

  /** `x` may stand before `y`: the greater score, then the more shared memories, then the smaller source, then the
      smaller target. */
  predicate LinkOutranks(x: Link, y: Link) {
    && x.score >= y.score
    && (x.score == y.score ==> x.sharedCount >= y.sharedCount)
    && (x.score == y.score && x.sharedCount == y.sharedCount ==>
          StrLess(x.source, y.source) || (x.source == y.source && !StrLess(y.target, x.target)))
  }

  /** The link is that of an edge between two related documents, one of them a seed's. */
  ghost predicate IsSeedLink(env: Env, documents: seq<Related.Document>, entries: seq<Entry>,
                             seedDocuments: set<string>, l: Link) {
    var table := Table(env, documents, entries);
    && (l.source, l.target) in table && (l.source in seedDocuments || l.target in seedDocuments)
    && var e := table[(l.source, l.target)].edge;
       l.score == e.score >= 0.0 && l.sharedCount == e.sharedCount >= 1
  }

  /** The links are of edges that touch a seed's document, best first; such an edge is left out only when the maximum
      is used up, and then it outranks no link. */
  ghost predicate BestSeedLinks(env: Env, documents: seq<Related.Document>, entries: seq<Entry>,
                                seedDocuments: set<string>, maxExpansions: int, links: seq<Link>) {
    && (forall i, j | 0 <= i < j < |links| :: LinkOutranks(links[i], links[j]))
    && (forall l | l in links :: IsSeedLink(env, documents, entries, seedDocuments, l))
    && (forall l | IsSeedLink(env, documents, entries, seedDocuments, l) && l !in links ::
          (maxExpansions >= 0 ==> |links| == maxExpansions) && forall k | k in links :: LinkOutranks(k, l))
  }

  lemma NotBeforeOutranksLink(x: Link, y: Link)
    requires !LinkBefore(y, x)
    ensures LinkOutranks(x, y)
  {
    StrTrichotomy(x.source, y.source);
  }

  lemma LinkOrder()
    ensures WeakOrder(LinkBefore)
  {
    forall x, y | LinkBefore(x, y) ensures !LinkBefore(y, x) {
      StrTrichotomy(x.source, y.source);
      StrTrichotomy(x.target, y.target);
    }
    forall x, y, z | !LinkBefore(y, x) && !LinkBefore(z, y) ensures !LinkBefore(z, x) {
      if !LexLess(y.source, x.source, y.target, x.target) && !LexLess(z.source, y.source, z.target, y.target) {
        NamesTransitive(x.source, y.source, z.source, x.target, y.target, z.target);
      }
    }
  }

  lemma EdgeOfTable(env: Env, documents: seq<Related.Document>, entries: seq<Entry>, k: Related.Pair)
    requires k in Table(env, documents, entries)
    ensures var e := Table(env, documents, entries)[k].edge; LinkOf(e) == Link(k.0, k.1, e.score, e.sharedCount)
    ensures Table(env, documents, entries)[k].edge.sharedCount >= 1
  {
    var docs, plain := Related.DocMap(documents), Mapped(Plain, entries);
    Related.RelatedTableAt(env.graph, docs, plain, k);
    Related.DocMapIdentified(documents);
    Related.NonEmptyCatalogs(Related.CatalogOf(env.graph, plain, k.0), Related.CatalogOf(env.graph, plain, k.1));
    hide Related.CatalogOf, Mapped;
    assert (DOCUMENT + k.0)[|DOCUMENT|..] == k.0 && (DOCUMENT + k.1)[|DOCUMENT|..] == k.1;
  }

  /** An edge is listed exactly if it is that of a pair with a shared memory and a score of at least 0. */
  lemma EdgeListed(env: Env, documents: seq<Related.Document>, entries: seq<Entry>, e: Related.Edge)
    ensures e in Related.EdgeList(Table(env, documents, entries), 1, 0.0)
            <==> exists k :: Related.PassingPair(Table(env, documents, entries), 1, 0.0, k)
                             && Table(env, documents, entries)[k].edge == e
  {
    hide Table;
    var table := Table(env, documents, entries);
    Related.EdgeOrder(Related.Qualifying(table, 1, 0.0));
    assert e in Elems(Related.EdgeList(table, 1, 0.0)) <==> e in Related.Qualifying(table, 1, 0.0);
  }

  lemma LinkListed(env: Env, documents: seq<Related.Document>, entries: seq<Entry>, seedDocuments: set<string>, l: Link)
    ensures l in LinksOf(seedDocuments, Related.EdgeList(Table(env, documents, entries), 1, 0.0))
            <==> IsSeedLink(env, documents, entries, seedDocuments, l)
  {
    hide Related.EdgeList, LinkOf, Table, Filter;
    var table := Table(env, documents, entries);
    var edges := Related.EdgeList(table, 1, 0.0);
    if l in LinksOf(seedDocuments, edges) {
      var i :| 0 <= i < |edges| && LinkOf(edges[i]) == l;
      assert edges[i] in edges;
      EdgeListed(env, documents, entries, edges[i]);
      var k :| Related.PassingPair(table, 1, 0.0, k) && table[k].edge == edges[i];
      EdgeOfTable(env, documents, entries, k);
    }
    if IsSeedLink(env, documents, entries, seedDocuments, l) {
      var k := (l.source, l.target);
      EdgeOfTable(env, documents, entries, k);
      assert Related.PassingPair(table, 1, 0.0, k);
      EdgeListed(env, documents, entries, table[k].edge);
      var i :| 0 <= i < |edges| && edges[i] == table[k].edge;
      assert Mapped(LinkOf, edges)[i] == l;
    }
  }

  lemma LinksAreBest(env: Env, documents: seq<Related.Document>, entries: seq<Entry>, seedDocuments: set<string>,
                     maxExpansions: int)
    ensures BestSeedLinks(env, documents, entries, seedDocuments, maxExpansions,
                          BestLinks(env, documents, entries, seedDocuments, maxExpansions))
  {
    hide LinkBefore, LinkOutranks, LinksOf, Sort, Slice, Related.EdgeList, Table;
    var all := LinksOf(seedDocuments, Related.EdgeList(Table(env, documents, entries), 1, 0.0));
    LinkOrder();
    SliceKeepsBest(all, LinkBefore, maxExpansions);
    forall x, y | !LinkBefore(y, x) ensures LinkOutranks(x, y) {
      NotBeforeOutranksLink(x, y);
    }
    forall l ensures l in all <==> IsSeedLink(env, documents, entries, seedDocuments, l) {
      LinkListed(env, documents, entries, seedDocuments, l);
    }
  }

  method BuildExpansions(env: Env, documents: seq<Related.Document>, entries: seq<Entry>, seedDocuments: set<string>,
                         maxExpansions: int)
    returns (expansions: seq<Expansion>)
    ensures Mapped(LinkIn, expansions) == BestLinks(env, documents, entries, seedDocuments, maxExpansions)
    ensures BestSeedLinks(env, documents, entries, seedDocuments, maxExpansions, Mapped(LinkIn, expansions))
    ensures forall x | x in expansions :: Sound(env, documents, entries, x)
  {
    LinksAreBest(env, documents, entries, seedDocuments, maxExpansions);
    hide BestSeedLinks;
    if seedDocuments == {} || maxExpansions <= 0 {
      return [];
    }
    var related := RelatedOf(env, documents, entries);
    hide LinksOf, Sound, LinkOf, Mapped;
    var found := Expand(env, documents, entries, seedDocuments, related);
    SortMapped(LinkIn, found, ExpansionBefore, LinkBefore);
    var sorted := Sort(found, ExpansionBefore);
    SameMembers(sorted, found);
    SliceMapped(LinkIn, sorted, maxExpansions);
    expansions := Slice(sorted, maxExpansions);
    forall x | x in expansions ensures x in found {
      assert x in Elems(sorted);
    }
  }

  method RelatedOf(env: Env, documents: seq<Related.Document>, entries: seq<Entry>)
    returns (related: seq<Related.Related>)
    ensures Index.Edges(related) == Related.EdgeList(Table(env, documents, entries), 1, 0.0)
    ensures forall x | x in related :: Index.Describable(Table(env, documents, entries), x)
  {
    related := Index.BuildRelatedEdges(env.graph, documents, Mapped(Plain, entries), 1, 0.0, Related.Unlimited);
  }

  function ExpansionOf(env: Env, entries: seq<Entry>, r: Related.Related): Expansion {
    Expansion(LinkOf(r.edge), r.rank, EvidenceIds(env.graph, entries, LinkOf(r.edge), r.shared))
  }

  /** The edges that touch a seed's document, with their evidence. */
  method Expand(env: Env, documents: seq<Related.Document>, entries: seq<Entry>, seedDocuments: set<string>,
                related: seq<Related.Related>)
    returns (found: seq<Expansion>)
    requires forall x | x in related :: Index.Describable(Table(env, documents, entries), x)
    ensures Mapped(LinkIn, found) == LinksOf(seedDocuments, Index.Edges(related))
    ensures forall x | x in found :: Sound(env, documents, entries, x)
  {
    found := [];
    for i := 0 to |related|
      invariant Mapped(LinkIn, found) == LinksOf(seedDocuments, Index.Edges(related[..i]))
      invariant forall x | x in found :: Sound(env, documents, entries, x)
    {
      hide LinksOf, ExpansionOf, Mapped, Table, Sound, Index.Edges, Index.Describable;
      var x := ExpansionOf(env, entries, related[i]);
      ExpandTurn(env, documents, entries, seedDocuments, related, i, found, x);
      if x.link.source in seedDocuments || x.link.target in seedDocuments {
        found := found + [x];
      }
    }
    assert related[..|related|] == related;
  }

  lemma ExpandTurn(env: Env, documents: seq<Related.Document>, entries: seq<Entry>, seedDocuments: set<string>,
                   related: seq<Related.Related>, i: nat, found: seq<Expansion>, x: Expansion)
    requires i < |related| && Index.Describable(Table(env, documents, entries), related[i])
    requires x == ExpansionOf(env, entries, related[i])
    requires Mapped(LinkIn, found) == LinksOf(seedDocuments, Index.Edges(related[..i]))
    ensures Sound(env, documents, entries, x)
    ensures Mapped(LinkIn, if Touches(seedDocuments)(x.link) then found + [x] else found)
            == LinksOf(seedDocuments, Index.Edges(related[..i + 1]))
  {
    hide LinksOf, EvidenceIds, LinkOf, Mapped, Table, Sound, Index.Edges, Index.Describable;
    DescribedIsSound(env, documents, entries, related[i], related[i].rank);
    OneMoreLink(seedDocuments, related, i);
    SnocMapped(LinkIn, found, x);
  }

  lemma SnocMapped<A, B>(f: A -> B, s: seq<A>, x: A)
    ensures Mapped(f, s + [x]) == Mapped(f, s) + [f(x)]
  {
    MappedAppend(f, s, [x]);
  }

  lemma OneMoreLink(seedDocuments: set<string>, related: seq<Related.Related>, i: nat)
    requires i < |related|
    ensures LinksOf(seedDocuments, Index.Edges(related[..i + 1]))
            == LinksOf(seedDocuments, Index.Edges(related[..i]))
               + if Touches(seedDocuments)(LinkOf(related[i].edge)) then [LinkOf(related[i].edge)] else []
  {
    var p, q := related[..i], [related[i]];
    var l := LinkOf(related[i].edge);
    TakeOneMore(related, i);
    MappedAppend(Index.EdgeIn, p, q);
    MappedAppend(LinkOf, Index.Edges(p), Index.Edges(q));
    assert Mapped(LinkOf, Index.Edges(q)) == [l];
    FilterAppend(Touches(seedDocuments), Mapped(LinkOf, Index.Edges(p)), [l]);
    assert [l][1..] == [];
  }

  // ----- contexts

  function SeedContext(s: Seed): Context {
    Context(true, s.documentId, s.chunkId, [s.entryId], s.score)
  }

  /** The documents an expansion contributes: its ends outside the seeds' documents, or else its target. */
  function Targets(seedDocuments: set<string>, l: Link): (r: seq<string>)
    ensures r != [] && forall d | d in r :: d == l.source || d == l.target
  {
    if l.source !in seedDocuments then
      if l.target !in seedDocuments then [l.source, l.target] else [l.source]
    else [l.target]
  }

  /** The entries by identifier; of several with one identifier the last counts. */
  function ById(entries: seq<Entry>): (m: map<string, Entry>)
    ensures forall e | e in entries :: e.id in m
    ensures forall k | k in m :: m[k].id == k && m[k] in entries
  {
    if entries == [] then map[]
    else
      assert entries == entries[..|entries| - 1] + [entries[|entries| - 1]];
      ById(entries[..|entries| - 1])[entries[|entries| - 1].id := entries[|entries| - 1]]
  }

  function Known(byId: map<string, Entry>): string -> bool {
    (id: string) => id in byId
  }

  function KnownIn(byId: map<string, Entry>, d: string): string -> bool {
    (id: string) => id in byId && byId[id].documentId == d
  }

  /** The evidence shown for document `d`: its own entries, or all of them if it has none. */
  function Shown(byId: map<string, Entry>, x: Expansion, d: string): (ids: seq<string>)
    ensures forall id | id in ids :: id in byId
  {
    var own := Filter(KnownIn(byId, d), x.evidence);
    if own != [] then own else Filter(Known(byId), x.evidence)
  }

  function ExpansionContext(byId: map<string, Entry>, x: Expansion, d: string): Context {
    var ids := Shown(byId, x, d);
    Context(false, d, if ids == [] then "" else byId[ids[0]].chunkId, ids, x.link.score)
  }

  function DocumentOf(c: Context): string {
    c.documentId
  }

  function Documents(cs: seq<Context>): set<string> {
    Elems(Mapped(DocumentOf, cs))
  }

  function WithTarget(byId: map<string, Entry>, cs: seq<Context>, x: Expansion, d: string): seq<Context> {
    if d in Documents(cs) then cs else cs + [ExpansionContext(byId, x, d)]
  }

  function WithTargets(byId: map<string, Entry>, cs: seq<Context>, x: Expansion, ds: seq<string>): seq<Context> {
    if ds == [] then cs else WithTarget(byId, WithTargets(byId, cs, x, ds[..|ds| - 1]), x, ds[|ds| - 1])
  }

  function Expanded(byId: map<string, Entry>, seedDocuments: set<string>, xs: seq<Expansion>): seq<Context> {
    if xs == [] then []
    else
      var x := xs[|xs| - 1];
      WithTargets(byId, Expanded(byId, seedDocuments, xs[..|xs| - 1]), x, Targets(seedDocuments, x.link))
  }

  /** Seeds before expansions, then by score; the document identifier breaks ties. */
  predicate ContextBefore(x: Context, y: Context) {
    if x.isSeed != y.isSeed then x.isSeed
    else if x.score != y.score then x.score > y.score
    else StrLess(x.documentId, y.documentId)
  }

  function SeedDocuments(seeds: seq<Seed>): set<string> {
    set s | s in seeds :: s.documentId
  }

  function Contexts(byId: map<string, Entry>, seeds: seq<Seed>, xs: seq<Expansion>): seq<Context> {
    Sort(Mapped(SeedContext, seeds) + Expanded(byId, SeedDocuments(seeds), xs), ContextBefore)
  }

  method BuildContexts(entries: seq<Entry>, seeds: seq<Seed>, xs: seq<Expansion>) returns (contexts: seq<Context>)
    ensures contexts == Contexts(ById(entries), seeds, xs)
  {
    var byId := ById(entries);
    var seedDocuments := SeedDocuments(seeds);
    contexts := [];
    for i := 0 to |seeds|
      invariant contexts == Mapped(SeedContext, seeds[..i])
    {
      MappedOneMore(SeedContext, seeds, i);
      contexts := contexts + [SeedContext(seeds[i])];
    }
    assert seeds[..|seeds|] == seeds;
    var expanded := ExpandAll(byId, seedDocuments, xs);
    contexts := Sort(contexts + expanded, ContextBefore);
  }

  lemma MappedOneMore<A(!new), B>(f: A -> B, s: seq<A>, i: nat)
    requires i < |s|
    ensures Mapped(f, s[..i + 1]) == Mapped(f, s[..i]) + [f(s[i])]
  {
    TakeOneMore(s, i);
    MappedAppend(f, s[..i], [s[i]]);
  }

  method ExpandAll(byId: map<string, Entry>, seedDocuments: set<string>, xs: seq<Expansion>) returns (cs: seq<Context>)
    ensures cs == Expanded(byId, seedDocuments, xs)
  {
    var seen: set<string> := {};
    cs := [];
    for i := 0 to |xs|
      invariant cs == Expanded(byId, seedDocuments, xs[..i])
      invariant seen == Documents(cs)
    {
      assert xs[..i + 1][..i] == xs[..i];
      cs, seen := ExpandOne(byId, xs[i], Targets(seedDocuments, xs[i].link), cs, seen);
    }
    assert xs[..|xs|] == xs;
  }

  method ExpandOne(byId: map<string, Entry>, x: Expansion, targets: seq<string>, before: seq<Context>,
                   seenBefore: set<string>)
    returns (cs: seq<Context>, seen: set<string>)
    requires seenBefore == Documents(before)
    ensures cs == WithTargets(byId, before, x, targets) && seen == Documents(cs)
  {
    hide ExpansionContext, Documents;
    cs, seen := before, seenBefore;
    for j := 0 to |targets|
      invariant cs == WithTargets(byId, before, x, targets[..j]) && seen == Documents(cs)
    {
      assert targets[..j + 1][..j] == targets[..j];
      if targets[j] in seen {
        continue;
      }
      NewContext(byId, x, targets[j]);
      DocumentsAppend(cs, ExpansionContext(byId, x, targets[j]));
      seen := seen + {targets[j]};
      cs := cs + [ExpansionContext(byId, x, targets[j])];
    }
    assert targets[..|targets|] == targets;
  }

  lemma DocumentsAppend(cs: seq<Context>, c: Context)
    ensures Documents(cs + [c]) == Documents(cs) + {c.documentId}
  {
    MappedAppend(DocumentOf, cs, [c]);
    var m := Mapped(DocumentOf, cs);
    forall d ensures d in Documents(cs + [c]) <==> d in Documents(cs) + {c.documentId} {
      assert d in m + [c.documentId] <==> d in m || d == c.documentId;
    }
  }

  // ----- one context per document, from its strongest link

  /** Expansion `j` is the first that contributes document `d`. */
  ghost predicate FirstReach(seedDocuments: set<string>, xs: seq<Expansion>, d: string, j: nat) {
    && j < |xs| && d in Targets(seedDocuments, xs[j].link)
    && forall i | 0 <= i < j :: d !in Targets(seedDocuments, xs[i].link)
  }

  ghost predicate FromFirst(byId: map<string, Entry>, seedDocuments: set<string>, xs: seq<Expansion>, c: Context) {
    exists j: nat :: FirstReach(seedDocuments, xs, c.documentId, j) && c == ExpansionContext(byId, xs[j], c.documentId)
  }

  ghost predicate Reached(seedDocuments: set<string>, xs: seq<Expansion>, d: string) {
    exists x :: x in xs && d in Targets(seedDocuments, x.link)
  }

  /** `r` is `cs` followed by contexts made from `x`, one for each document of `ds` that `cs` did not have. */
  ghost predicate Adds(byId: map<string, Entry>, cs: seq<Context>, r: seq<Context>, x: Expansion, ds: set<string>) {
    && cs <= r && Distinct(Mapped(DocumentOf, r)) && Documents(r) == Documents(cs) + ds
    && forall c | c in r && c !in cs ::
         c == ExpansionContext(byId, x, c.documentId) && c.documentId in ds && c.documentId !in Documents(cs)
  }

  lemma WithTargetAdds(byId: map<string, Entry>, cs: seq<Context>, r: seq<Context>, x: Expansion, ds: set<string>,
                       d: string)
    requires Adds(byId, cs, r, x, ds)
    ensures Adds(byId, cs, WithTarget(byId, r, x, d), x, ds + {d})
  {
    hide ExpansionContext, Documents;
    if d in Documents(r) {
      assert Documents(cs) + ds == Documents(cs) + (ds + {d});
    } else {
      hide Adds;
      NewTargetAdds(byId, cs, r, x, ds, d);
    }
  }

  lemma NewTargetAdds(byId: map<string, Entry>, cs: seq<Context>, r: seq<Context>, x: Expansion, ds: set<string>,
                      d: string)
    requires Adds(byId, cs, r, x, ds) && d !in Documents(r)
    ensures Adds(byId, cs, r + [ExpansionContext(byId, x, d)], x, ds + {d})
  {
    hide ExpansionContext;
    var c := ExpansionContext(byId, x, d);
    var q := r + [c];
    NewContext(byId, x, d);
    DocumentsAppend(r, c);
    assert Distinct(Mapped(DocumentOf, q)) by {
      MappedAppend(DocumentOf, r, [c]);
    }
    hide Documents, Distinct;
    assert Documents(cs) + ds + {d} == Documents(cs) + (ds + {d});
    forall e | e in q && e !in cs
      ensures e == ExpansionContext(byId, x, e.documentId) && e.documentId in ds + {d} && e.documentId !in Documents(cs)
    {
      assert e in r || e == c;
    }
  }

  lemma NewContext(byId: map<string, Entry>, x: Expansion, d: string)
    ensures ExpansionContext(byId, x, d).documentId == d
  {
  }

  lemma {:induction false} WithTargetsAdds(byId: map<string, Entry>, cs: seq<Context>, x: Expansion, ds: seq<string>)
    requires Distinct(Mapped(DocumentOf, cs))
    ensures Adds(byId, cs, WithTargets(byId, cs, x, ds), x, Elems(ds))
    decreases |ds|
  {
    hide Documents, ExpansionContext;
    if ds == [] {
      assert Elems(ds) == {} && Documents(cs) + {} == Documents(cs);
    } else {
      var n := |ds| - 1;
      LastElem(ds);
      hide Adds, WithTarget;
      WithTargetsAdds(byId, cs, x, ds[..n]);
      WithTargetAdds(byId, cs, WithTargets(byId, cs, x, ds[..n]), x, Elems(ds[..n]), ds[n]);
    }
  }

  /** Every document that some expansion contributes has exactly one expansion context, made from the first such
      expansion. */
  lemma {:induction false} OneContextPerDocument(byId: map<string, Entry>, seedDocuments: set<string>,
                                                 xs: seq<Expansion>)
    ensures var cs := Expanded(byId, seedDocuments, xs);
            && Distinct(Mapped(DocumentOf, cs))
            && (forall d :: d in Documents(cs) <==> Reached(seedDocuments, xs, d))
            && (forall c | c in cs :: FromFirst(byId, seedDocuments, xs, c))
    decreases |xs|
  {
    if xs != [] {
      var n := |xs| - 1;
      var front, x := xs[..n], xs[n];
      assert xs == front + [x];
      OneContextPerDocument(byId, seedDocuments, front);
      var before := Expanded(byId, seedDocuments, front);
      WithTargetsAdds(byId, before, x, Targets(seedDocuments, x.link));
      var cs := Expanded(byId, seedDocuments, xs);
      forall d ensures d in Documents(cs) <==> Reached(seedDocuments, xs, d) {
        ReachedOneMore(seedDocuments, front, x, d);
      }
      forall c | c in cs ensures FromFirst(byId, seedDocuments, xs, c) {
        FromFirstOneMore(byId, seedDocuments, front, x, c);
      }
    }
  }

  lemma ReachedOneMore(seedDocuments: set<string>, front: seq<Expansion>, x: Expansion, d: string)
    ensures Reached(seedDocuments, front + [x], d)
            <==> Reached(seedDocuments, front, d) || d in Targets(seedDocuments, x.link)
  {
    var xs := front + [x];
    assert forall y :: y in xs <==> y in front || y == x;
  }

  lemma FromFirstOneMore(byId: map<string, Entry>, seedDocuments: set<string>, front: seq<Expansion>, x: Expansion,
                         c: Context)
    requires FromFirst(byId, seedDocuments, front, c)
             || (c == ExpansionContext(byId, x, c.documentId) && c.documentId in Targets(seedDocuments, x.link)
                 && !Reached(seedDocuments, front, c.documentId))
    ensures FromFirst(byId, seedDocuments, front + [x], c)
  {
    var xs := front + [x];
    if FromFirst(byId, seedDocuments, front, c) {
      var j: nat :| FirstReach(seedDocuments, front, c.documentId, j)
          && c == ExpansionContext(byId, front[j], c.documentId);
      assert FirstReach(seedDocuments, xs, c.documentId, j);
    } else {
      assert forall i | 0 <= i < |front| :: front[i] in front;
      assert FirstReach(seedDocuments, xs, c.documentId, |front|);
    }
  }

  /** With expansions in rank order, a document's context carries the best score of all links that reach it. */
  lemma ContextHasBestScore(byId: map<string, Entry>, seedDocuments: set<string>, xs: seq<Expansion>, c: Context,
                            x: Expansion)
    requires Ordered(xs, ExpansionBefore) && c in Expanded(byId, seedDocuments, xs)
    requires x in xs && c.documentId in Targets(seedDocuments, x.link)
    ensures c.score >= x.link.score
  {
    hide Expanded, Targets, Reached, Documents, Shown, LinkBefore;
    OneContextPerDocument(byId, seedDocuments, xs);
    assert FromFirst(byId, seedDocuments, xs, c);
    var j: nat :| FirstReach(seedDocuments, xs, c.documentId, j) && c == ExpansionContext(byId, xs[j], c.documentId);
    var i :| 0 <= i < |xs| && xs[i] == x;
    assert j <= i;
    assert j < i ==> !LinkBefore(xs[i].link, xs[j].link);
    BetterScoreFirst(xs[i].link, xs[j].link);
  }

  lemma BetterScoreFirst(x: Link, y: Link)
    ensures x.score > y.score ==> LinkBefore(x, y)
  {
  }

  /** A seed's document is shown as an expansion only through a link between two seeds' documents. */
  lemma SeedDocumentsShown(byId: map<string, Entry>, seedDocuments: set<string>, xs: seq<Expansion>, d: string)
    requires d in seedDocuments
    ensures d in Documents(Expanded(byId, seedDocuments, xs))
            <==> exists x :: x in xs && x.link.source in seedDocuments && x.link.target == d
  {
    OneContextPerDocument(byId, seedDocuments, xs);
    forall x | x in xs
      ensures d in Targets(seedDocuments, x.link) <==> x.link.source in seedDocuments && x.link.target == d
    {
    }
  }

  // ----- seeds lead

  ghost predicate SeedsLead(cs: seq<Context>) {
    forall i, j | 0 <= i < j < |cs| && cs[j].isSeed :: cs[i].isSeed
  }

  function IsSeed(c: Context): bool {
    c.isSeed
  }

  lemma ContextOrder()
    ensures WeakOrder(ContextBefore)
  {
    forall x, y | ContextBefore(x, y) ensures !ContextBefore(y, x) {
      StrTrichotomy(x.documentId, y.documentId);
    }
    forall x, y, z | !ContextBefore(y, x) && !ContextBefore(z, y) ensures !ContextBefore(z, x) {
      if !StrLess(y.documentId, x.documentId) && !StrLess(z.documentId, y.documentId) {
        StrNotLessTransitive(x.documentId, y.documentId, z.documentId);
      }
    }
  }

  lemma ContextsSeedsLead(byId: map<string, Entry>, seeds: seq<Seed>, xs: seq<Expansion>, topK: int)
    ensures SeedsLead(Slice(Contexts(byId, seeds, xs), topK))
  {
    hide Expanded, SeedDocuments, Sort, Mapped;
    ContextOrder();
    var all := Mapped(SeedContext, seeds) + Expanded(byId, SeedDocuments(seeds), xs);
    SortOrders(all, ContextBefore);
    SliceIsFirst(Sort(all, ContextBefore), topK);
    hide Slice, WeakOrder;
    assert forall x, y | !ContextBefore(y, x) :: y.isSeed ==> x.isSeed;
  }

  lemma {:induction false} LeadingSeeds(cs: seq<Context>, n: nat)
    requires SeedsLead(cs) && |Filter(IsSeed, cs)| <= n <= |cs|
    ensures Filter(IsSeed, cs[..n]) == Filter(IsSeed, cs)
  {
    FilterAppend(IsSeed, cs[..n], cs[n..]);
    assert cs == cs[..n] + cs[n..];
    if Filter(IsSeed, cs[n..]) != [] {
      var c := Filter(IsSeed, cs[n..])[0];
      assert c in cs[n..] && c.isSeed;
      var j :| 0 <= j < |cs[n..]| && cs[n..][j] == c;
      assert cs[n + j].isSeed;
      AllSeeded(cs[..n]);
    }
  }

  lemma {:induction false} AllSeeded(cs: seq<Context>)
    requires forall i | 0 <= i < |cs| :: cs[i].isSeed
    ensures Filter(IsSeed, cs) == cs
  {
    if cs != [] {
      AllSeeded(cs[1..]);
    }
  }

  lemma {:induction false} NoneSeeded(cs: seq<Context>)
    requires forall i | 0 <= i < |cs| :: !cs[i].isSeed
    ensures Filter(IsSeed, cs) == []
  {
    if cs != [] {
      NoneSeeded(cs[1..]);
    }
  }

  lemma SeedsThenExpansions(byId: map<string, Entry>, seeds: seq<Seed>, xs: seq<Expansion>)
    ensures Filter(IsSeed, Mapped(SeedContext, seeds) + Expanded(byId, SeedDocuments(seeds), xs))
            == Mapped(SeedContext, seeds)
  {
    var a, b := Mapped(SeedContext, seeds), Expanded(byId, SeedDocuments(seeds), xs);
    FilterAppend(IsSeed, a, b);
    AllSeeded(a);
    OneContextPerDocument(byId, SeedDocuments(seeds), xs);
    hide Expanded, Filter;
    forall i | 0 <= i < |b| ensures !b[i].isSeed {
      assert FromFirst(byId, SeedDocuments(seeds), xs, b[i]);
    }
    NoneSeeded(b);
  }

  lemma SeedsAreSeeds(byId: map<string, Entry>, seeds: seq<Seed>, xs: seq<Expansion>)
    ensures Filter(IsSeed, Contexts(byId, seeds, xs)) == Sort(Mapped(SeedContext, seeds), ContextBefore)
  {
    hide ContextBefore, WeakOrder, Expanded, Mapped, Filter, Sort, SeedDocuments;
    ContextOrder();
    SortFilter(IsSeed, Mapped(SeedContext, seeds) + Expanded(byId, SeedDocuments(seeds), xs), ContextBefore);
    SeedsThenExpansions(byId, seeds, xs);
  }

  /** The cut never drops a seed: expansions only fill the places that the seeds leave free. */
  lemma NoSeedIsCut(byId: map<string, Entry>, seeds: seq<Seed>, xs: seq<Expansion>, topK: nat)
    requires |seeds| <= topK
    ensures Filter(IsSeed, Slice(Contexts(byId, seeds, xs), topK)) == Sort(Mapped(SeedContext, seeds), ContextBefore)
  {
    var cs := Contexts(byId, seeds, xs);
    SeedsAreSeeds(byId, seeds, xs);
    ContextsSeedsLead(byId, seeds, xs, |cs|);
    if topK < |cs| {
      LeadingSeeds(cs, topK);
    }
  }

  // ----- what the contexts say

  /** `x` may stand before `y`: seeds first, then the greater score, then the smaller document identifier. */
  predicate ContextOutranks(x: Context, y: Context) {
    && (y.isSeed ==> x.isSeed)
    && (x.isSeed == y.isSeed ==> x.score >= y.score)
    && (x.isSeed == y.isSeed && x.score == y.score ==> !StrLess(y.documentId, x.documentId))
  }

  ghost predicate TellsSeed(c: Context, s: Seed) {
    && c.isSeed && c.documentId == s.documentId && c.chunkId == s.chunkId
    && c.entryIds == [s.entryId] && c.score == s.score
  }

  ghost predicate LastAt(entries: seq<Entry>, e: Entry, i: nat) {
    i < |entries| && entries[i] == e && forall j | i < j < |entries| :: entries[j].id != e.id
  }

  /** Entry `e` belongs to the evidence of `x`; of several entries with one identifier the last counts. */
  ghost predicate IsEvidenceOf(entries: seq<Entry>, x: Expansion, e: Entry) {
    e.id in x.evidence && exists i: nat :: LastAt(entries, e, i)
  }

  /** The context of document `c.documentId`, reached through `x`: its own evidence, or all of it if none is its own,
      and the chunk of the first entry shown. */
  ghost predicate TellsExpansion(entries: seq<Entry>, x: Expansion, c: Context) {
    var owned := exists e :: IsEvidenceOf(entries, x, e) && e.documentId == c.documentId;
    && !c.isSeed && c.score == x.link.score && (c.documentId == x.link.source || c.documentId == x.link.target)
    && (forall id ::
          id in c.entryIds
          <==> exists e :: IsEvidenceOf(entries, x, e) && e.id == id && (owned ==> e.documentId == c.documentId))
    && (c.entryIds == [] ==> c.chunkId == "")
    && (c.entryIds != [] ==>
          exists e :: IsEvidenceOf(entries, x, e) && e.id == c.entryIds[0] && e.chunkId == c.chunkId)
  }

  ghost predicate TellsSource(entries: seq<Entry>, seeds: seq<Seed>, xs: seq<Expansion>, c: Context) {
    (exists s :: s in seeds && TellsSeed(c, s)) || (exists x :: x in xs && TellsExpansion(entries, x, c))
  }

  /** Document `d` has a context that tells an expansion; it is missing from `cs` only because they are `topK`
      already, and then it outranks none of them. */
  ghost predicate HasContext(entries: seq<Entry>, xs: seq<Expansion>, topK: int, cs: seq<Context>, d: string) {
    exists c: Context, x: Expansion :: && c.documentId == d && x in xs && TellsExpansion(entries, x, c)
                   && (c in cs || ((topK >= 0 ==> |cs| == topK) && forall k | k in cs :: ContextOutranks(k, c)))
  }

  /** The contexts stand in order, each tells a seed or an expansion, and every document outside the seeds' that an
      expansion leads to has one. */
  ghost predicate ContextsTell(entries: seq<Entry>, seeds: seq<Seed>, xs: seq<Expansion>, topK: int, cs: seq<Context>) {
    && (forall i, j | 0 <= i < j < |cs| :: ContextOutranks(cs[i], cs[j]))
    && (forall c | c in cs :: TellsSource(entries, seeds, xs, c))
    && (forall x, d | x in xs && (d == x.link.source || d == x.link.target) && d !in SeedDocuments(seeds) ::
          HasContext(entries, xs, topK, cs, d))
  }

  /** The identifiers lead to the last entry that has them. */
  lemma {:induction false} ByIdIsLast(entries: seq<Entry>, e: Entry)
    ensures e.id in ById(entries) && ById(entries)[e.id] == e <==> exists i: nat :: LastAt(entries, e, i)
  {
    if entries != [] {
      var n := |entries| - 1;
      ByIdIsLast(entries[..n], e);
      LastOrEarlier(entries, e);
      hide LastAt;
    }
  }

  lemma LastOrEarlier(entries: seq<Entry>, e: Entry)
    requires entries != []
    ensures var n := |entries| - 1;
            (exists i: nat :: LastAt(entries, e, i))
            <==> if entries[n].id == e.id then entries[n] == e else exists i: nat :: LastAt(entries[..n], e, i)
  {
    var n := |entries| - 1;
    if entries[n] == e {
      assert LastAt(entries, e, n);
    }
    if i: nat :| LastAt(entries, e, i) {
      if i < n {
        assert entries[..n][i] == e;
        assert LastAt(entries[..n], e, i);
      }
    }
    if entries[n].id != e.id {
      if i: nat :| LastAt(entries[..n], e, i) {
        assert LastAt(entries, e, i);
      }
    }
  }

  lemma EvidenceKnown(entries: seq<Entry>, x: Expansion, e: Entry)
    ensures IsEvidenceOf(entries, x, e) <==> e.id in x.evidence && e.id in ById(entries) && ById(entries)[e.id] == e
  {
    ByIdIsLast(entries, e);
  }

  lemma ShownIds(byId: map<string, Entry>, x: Expansion, d: string, id: string)
    ensures var owned := exists o :: o in x.evidence && o in byId && byId[o].documentId == d;
            id in Shown(byId, x, d) <==> id in x.evidence && id in byId && (owned ==> byId[id].documentId == d)
  {
    var own := Filter(KnownIn(byId, d), x.evidence);
    if o :| o in x.evidence && o in byId && byId[o].documentId == d {
      assert o in own;
    }
    if own != [] {
      assert own[0] in own;
    }
  }

  lemma ExpansionIsTold(entries: seq<Entry>, x: Expansion, d: string)
    requires d == x.link.source || d == x.link.target
    ensures TellsExpansion(entries, x, ExpansionContext(ById(entries), x, d))
  {
    hide Shown, ById, IsEvidenceOf;
    var byId := ById(entries);
    var c := ExpansionContext(byId, x, d);
    forall e ensures IsEvidenceOf(entries, x, e) <==> e.id in x.evidence && e.id in byId && byId[e.id] == e {
      EvidenceKnown(entries, x, e);
    }
    forall id
      ensures var owned := exists o :: o in x.evidence && o in byId && byId[o].documentId == d;
              id in c.entryIds <==> id in x.evidence && id in byId && (owned ==> byId[id].documentId == d)
    {
      ShownIds(byId, x, d, id);
    }
    if o :| o in x.evidence && o in byId && byId[o].documentId == d {
      assert IsEvidenceOf(entries, x, byId[o]);
    }
    forall id | id in c.entryIds ensures IsEvidenceOf(entries, x, byId[id]) {
    }
    if c.entryIds != [] {
      assert c.entryIds[0] in c.entryIds;
    }
  }

  lemma ContextsAreTold(entries: seq<Entry>, seeds: seq<Seed>, xs: seq<Expansion>, topK: int)
    ensures ContextsTell(entries, seeds, xs, topK, Slice(Contexts(ById(entries), seeds, xs), topK))
  {
    hide ById, Expanded, TellsExpansion, ExpansionContext, ContextBefore, ContextOutranks, Sort, Slice, TellsSeed;
    hide Documents, HasContext;
    var byId, ds := ById(entries), SeedDocuments(seeds);
    var a, b := Mapped(SeedContext, seeds), Expanded(byId, ds, xs);
    ContextOrder();
    SliceKeepsBest(a + b, ContextBefore, topK);
    forall x, y | !ContextBefore(y, x) ensures ContextOutranks(x, y) {
      NotBeforeOutranksContext(x, y);
    }
    OneContextPerDocument(byId, ds, xs);
    forall c | c in a + b ensures TellsSource(entries, seeds, xs, c) {
      if c in a {
        var i :| 0 <= i < |a| && a[i] == c;
        SeedContextTells(seeds[i]);
        assert seeds[i] in seeds && TellsSeed(c, seeds[i]);
      } else {
        var x := ExpandedTells(entries, ds, xs, c);
      }
    }
    forall x, d | x in xs && (d == x.link.source || d == x.link.target) && d !in ds
      ensures HasContext(entries, xs, topK, Slice(Sort(a + b, ContextBefore), topK), d)
    {
      OutsideIsTarget(ds, x.link, d);
      assert Reached(ds, xs, d);
      var c := ContextOfDocument(b, d);
      var y := ExpandedTells(entries, ds, xs, c);
      assert c in a + b;
      IsReached(entries, xs, topK, Slice(Sort(a + b, ContextBefore), topK), d, c, y);
    }
  }

  lemma IsReached(entries: seq<Entry>, xs: seq<Expansion>, topK: int, cs: seq<Context>, d: string, c: Context,
                  x: Expansion)
    requires c.documentId == d && x in xs && TellsExpansion(entries, x, c)
    requires c in cs || ((topK >= 0 ==> |cs| == topK) && forall k | k in cs :: ContextOutranks(k, c))
    ensures HasContext(entries, xs, topK, cs, d)
  {
  }

  lemma OutsideIsTarget(ds: set<string>, l: Link, d: string)
    requires (d == l.source || d == l.target) && d !in ds
    ensures d in Targets(ds, l)
  {
  }

  lemma ContextOfDocument(cs: seq<Context>, d: string) returns (c: Context)
    requires d in Documents(cs)
    ensures c in cs && c.documentId == d
  {
    var i :| 0 <= i < |cs| && cs[i].documentId == d;
    c := cs[i];
  }

  lemma ExpandedTells(entries: seq<Entry>, ds: set<string>, xs: seq<Expansion>, c: Context) returns (x: Expansion)
    requires c in Expanded(ById(entries), ds, xs)
    ensures x in xs && TellsExpansion(entries, x, c)
  {
    hide ById, Expanded, TellsExpansion, ExpansionContext, Documents;
    var byId := ById(entries);
    OneContextPerDocument(byId, ds, xs);
    assert FromFirst(byId, ds, xs, c);
    var j: nat :| FirstReach(ds, xs, c.documentId, j) && c == ExpansionContext(byId, xs[j], c.documentId);
    ExpansionIsTold(entries, xs[j], c.documentId);
    x := xs[j];
  }

  lemma SeedContextTells(s: Seed)
    ensures TellsSeed(SeedContext(s), s)
  {
  }

  lemma NotBeforeOutranksContext(x: Context, y: Context)
    requires !ContextBefore(y, x)
    ensures ContextOutranks(x, y)
  {
  }

  // ----- the decision

  datatype Decision = Decision(seeds: seq<Seed>, expansions: seq<Expansion>, contexts: seq<Context>)

  method BuildDecision(env: Env, documents: seq<Related.Document>, entries: seq<Entry>, terms: seq<string>,
                       topK: int, maxExpansions: int)
    returns (r: Decision)
    ensures r.seeds == Slice(Sort(AllSeeds(env, entries, terms), SeedBefore), topK)
    ensures BestMatches(env, entries, terms, topK, r.seeds)
    ensures Mapped(LinkIn, r.expansions) == BestLinks(env, documents, entries, SeedDocuments(r.seeds), maxExpansions)
    ensures forall x | x in r.expansions :: Sound(env, documents, entries, x)
    ensures r.contexts == Slice(Contexts(ById(entries), r.seeds, r.expansions), topK)
    ensures BestSeedLinks(env, documents, entries, SeedDocuments(r.seeds), maxExpansions, Mapped(LinkIn, r.expansions))
    ensures ContextsTell(entries, r.seeds, r.expansions, topK, r.contexts)
    ensures SeedsLead(r.contexts)
    ensures topK >= 0 ==> Filter(IsSeed, r.contexts) == Sort(Mapped(SeedContext, r.seeds), ContextBefore)
  {
    hide Contexts, Sound, BestLinks, AllSeeds, SeedsLead, BestMatches, BestSeedLinks, ContextsTell;
    var seeds := FindSeeds(env, entries, terms, topK);
    var expansions := BuildExpansions(env, documents, entries, SeedDocuments(seeds), maxExpansions);
    var contexts := BuildContexts(entries, seeds, expansions);
    ContextsSeedsLead(ById(entries), seeds, expansions, topK);
    ContextsAreTold(entries, seeds, expansions, topK);
    if topK >= 0 {
      NoSeedIsCut(ById(entries), seeds, expansions, topK);
    }
    r := Decision(seeds, expansions, Slice(contexts, topK));
  }

  // ----- the comparison

  function HasChunk(c: Context): bool {
    c.chunkId != ""
  }

  function IsSeedWithChunk(c: Context): bool {
    c.isSeed && c.chunkId != ""
  }

  function ChunkOf(c: Context): string {
    c.chunkId
  }

  function BaselineIds(cs: seq<Context>): seq<string> {
    Mapped(ChunkOf, Filter(IsSeedWithChunk, cs))
  }

  function GraphIds(cs: seq<Context>): seq<string> {
    Mapped(ChunkOf, Filter(HasChunk, cs))
  }

  datatype Comparison = Comparison(baselineIds: seq<string>, graphIds: seq<string>, baseline: Metrics, graph: Metrics)

  function Compared(d: nat -> real, expectedIds: seq<string>, cs: seq<Context>, k: int): Comparison {
    var b, g := Dedupe(BaselineIds(cs)), Dedupe(GraphIds(cs));
    Comparison(b, g, Evaluation(d, expectedIds, b, k), Evaluation(d, expectedIds, g, k))
  }

  /** The differences reported, rounded. */
  datatype Delta = Delta(recall: real, mrr: real, ndcg: real)

  /** Rounding that respects the order and leaves zero alone. */
  ghost predicate Monotone(round: real -> real) {
    round(0.0) == 0.0 && forall x, y | x <= y :: round(x) <= round(y)
  }

  method CompareGraphRetrieval(d: nat -> real, round: real -> real, expectedIds: seq<string>, contexts: seq<Context>,
                               k: int)
    returns (r: Comparison, delta: Delta)
    ensures r == Compared(d, expectedIds, contexts, k)
    ensures delta == Delta(round(r.graph.recall - r.baseline.recall), round(r.graph.mrr - r.baseline.mrr),
                           round(r.graph.ndcg - r.baseline.ndcg))
    ensures SeedsLead(contexts) ==> r.baseline.recall <= r.graph.recall && r.baseline.mrr <= r.graph.mrr
    ensures SeedsLead(contexts) && Monotone(round) ==> delta.recall >= 0.0 && delta.mrr >= 0.0
  {
    hide BaselineIds, GraphIds, Dedupe, Evaluation, SeedsLead, Monotone;
    var b := DedupePreserveOrder(BaselineIds(contexts));
    var g := DedupePreserveOrder(GraphIds(contexts));
    var baseline := EvaluateRetrieval(d, expectedIds, b, k);
    var graph := EvaluateRetrieval(d, expectedIds, g, k);
    r := Comparison(b, g, baseline, graph);
    delta := Delta(round(graph.recall - baseline.recall), round(graph.mrr - baseline.mrr),
                   round(graph.ndcg - baseline.ndcg));
    if SeedsLead(contexts) {
      GraphIsNeverWorse(d, expectedIds, contexts, k);
      if Monotone(round) {
        RoundKeepsSign(round, graph.recall - baseline.recall);
        RoundKeepsSign(round, graph.mrr - baseline.mrr);
      }
    }
  }

  lemma RoundKeepsSign(round: real -> real, x: real)
    requires Monotone(round) && x >= 0.0
    ensures round(x) >= 0.0
  {
  }

  lemma {:induction false} BaselineIsPrefix(cs: seq<Context>)
    requires SeedsLead(cs)
    ensures BaselineIds(cs) <= GraphIds(cs)
  {
    if cs != [] {
      if cs[0].isSeed {
        BaselineIsPrefix(cs[1..]);
      } else {
        NoBaseline(cs);
      }
    }
  }

  lemma {:induction false} NoBaseline(cs: seq<Context>)
    requires forall i | 0 <= i < |cs| :: !cs[i].isSeed
    ensures BaselineIds(cs) == []
  {
    if cs != [] {
      NoBaseline(cs[1..]);
    }
  }

  lemma PrefixDeduped(a: seq<string>, b: seq<string>)
    requires a <= b
    ensures Dedupe(a) <= Dedupe(b)
  {
    DedupeGrows(a, b[|a|..]);
    assert b == a + b[|a|..];
  }

  /** For every decision, every expected set and every cut-off, the graph's recall and MRR are at least the baseline's,
      and so is its NDCG once the baseline retrieves as many identifiers as are expected. */
  lemma GraphIsNeverWorse(d: nat -> real, expectedIds: seq<string>, cs: seq<Context>, k: int)
    requires SeedsLead(cs)
    ensures var r := Compared(d, expectedIds, cs, k);
            && r.baselineIds <= r.graphIds
            && r.baseline.recall <= r.graph.recall && r.baseline.mrr <= r.graph.mrr
            && (r.baseline.sourceHit ==> r.graph.sourceHit)
            && (Discount(d) && r.baseline.retrievedCount >= r.baseline.expectedCount
                ==> r.baseline.ndcg <= r.graph.ndcg)
  {
    var b, g := Dedupe(BaselineIds(cs)), Dedupe(GraphIds(cs));
    BaselineIsPrefix(cs);
    PrefixDeduped(BaselineIds(cs), GraphIds(cs));
    LongerRankingKeepsRecallAndMrr(d, expectedIds, b, g, k);
    if Discount(d) {
      NdcgKept(d, expectedIds, b, g, k);
    }
  }

  lemma NdcgKept(d: nat -> real, expectedIds: seq<string>, b: seq<string>, g: seq<string>, k: int)
    requires Discount(d) && b <= g
    ensures var x, y := Evaluation(d, expectedIds, b, k), Evaluation(d, expectedIds, g, k);
            x.retrievedCount >= x.expectedCount ==> x.ndcg <= y.ndcg
  {
    hide Ndcg, Dedupe, Retrieved, Recall, Mrr, Mapped;
    var expected := Dedupe(Mapped(Text.Strip, expectedIds));
    RetrievedGrows(b, g, k);
    DistinctHits(Elems(expected), expected);
    ElemsSize(expected);
    if |Retrieved(b, k)| >= |expected| {
      NdcgGrowsWhenFull(d, Elems(expected), Retrieved(b, k), Retrieved(g, k));
    }
  }

  /** Of the rankings `r` and its continuation `s`, the second NDCG is lower exactly if the first retrieves fewer than
      are expected and those added gain a smaller share of what they could. If all of them miss, that is as soon as
      the first has a hit; if all of them hit, never. */
  ghost predicate FallsExactly(d: nat -> real, e: set<string>, r: seq<string>, s: seq<string>, first: real,
                               second: real)
    requires r <= s
  {
    && (second < first
        <==> && |r| < Smaller(|e|, |s|)
             && IdealFrom(d, e, s, |r|) > 0.0
             && Ratio(GainFrom(d, e, s, |r|), IdealFrom(d, e, s, |r|)) < first)
    && ((forall i | |r| <= i < |s| :: s[i] !in e) ==>
          (second < first <==> |r| < |s| && |r| < |e| && exists y :: y in r && y in e))
    && ((forall i | |r| <= i < |s| :: s[i] in e) ==> first <= second)
  }

  /** Exactly when the graph's NDCG is below the baseline's, for every decision, expected set and cut-off: the baseline
      retrieves fewer identifiers than are expected, and those added gain a smaller share of what they could. If all of
      them miss, that is as soon as the baseline has a hit; if all of them hit, never. */
  lemma GraphLowersNdcgIff(d: nat -> real, expectedIds: seq<string>, cs: seq<Context>, k: int)
    requires Discount(d) && SeedsLead(cs)
    ensures var e := Elems(Dedupe(Mapped(Text.Strip, expectedIds)));
            var r, s := Retrieved(Dedupe(BaselineIds(cs)), k), Retrieved(Dedupe(GraphIds(cs)), k);
            var c := Compared(d, expectedIds, cs, k);
            r <= s && FallsExactly(d, e, r, s, c.baseline.ndcg, c.graph.ndcg)
  {
    var e := Elems(Dedupe(Mapped(Text.Strip, expectedIds)));
    var b, g := Dedupe(BaselineIds(cs)), Dedupe(GraphIds(cs));
    BaselineIsPrefix(cs);
    PrefixDeduped(BaselineIds(cs), GraphIds(cs));
    ComparedNdcg(d, expectedIds, cs, k);
    hide BaselineIds, GraphIds, Dedupe, Mapped, Retrieved, Ndcg, FallsExactly, Discount, Compared, Elems;
    RetrievedGrows(b, g, k);
    RetrievedTidy(b, k);
    LongerNdcg(d, e, Retrieved(b, k), Retrieved(g, k));
  }

  lemma ComparedNdcg(d: nat -> real, expectedIds: seq<string>, cs: seq<Context>, k: int)
    ensures var e := Elems(Dedupe(Mapped(Text.Strip, expectedIds)));
            var c := Compared(d, expectedIds, cs, k);
            && c.baseline.ndcg == Ndcg(d, e, Retrieved(Dedupe(BaselineIds(cs)), k))
            && c.graph.ndcg == Ndcg(d, e, Retrieved(Dedupe(GraphIds(cs)), k))
  {
    hide BaselineIds, GraphIds, Dedupe, Mapped, Retrieved, Recall, Mrr, Ndcg, Elems;
  }

  lemma LongerNdcg(d: nat -> real, e: set<string>, r: seq<string>, s: seq<string>)
    requires Discount(d) && r <= s && Distinct(r)
    ensures FallsExactly(d, e, r, s, Ndcg(d, e, r), Ndcg(d, e, s))
  {
    hide Ndcg, GainFrom, IdealFrom, Ratio, Hits;
    LongerLowersNdcgIff(d, e, r, s);
    if forall i | |r| <= i < |s| :: s[i] !in e {
      MissesLowerNdcgIff(d, e, r, s);
      SomeHit(e, r);
    }
    if forall i | |r| <= i < |s| :: s[i] in e {
      HitsNeverLowerNdcg(d, e, r, s);
    }
  }

  lemma TwoFiltered(p: Context -> bool, x: Context, y: Context)
    ensures Filter(p, [x, y]) == (if p(x) then [x] else []) + (if p(y) then [y] else [])
  {
    assert [x, y][1..] == [y] && [y][1..] == [];
  }

  /** With `a` and `c` expected, a seed that finds `a` and an expansion that finds `b` do worse than the seed alone. */
  lemma GraphCanLowerNdcg(d: nat -> real, hit: Context, miss: Context, a: string, b: string, c: string, k: nat)
    requires Discount(d) && Tidy([a, c]) && Tidy([a, b]) && b != c && k >= 2
    requires hit.isSeed && !miss.isSeed && hit.chunkId == a && miss.chunkId == b
    ensures SeedsLead([hit, miss])
    ensures var r := Compared(d, [a, c], [hit, miss], k); r.graph.ndcg < r.baseline.ndcg
  {
    hide BaselineIds, GraphIds, Compared, Dedupe, Retrieved, Discount, SeedsLead, Tidy, Text.Strip;
    TwoLead(hit, miss);
    TwoRetrieved(hit, miss, k);
    TidyRetrieved([a, c], k);
    TwoElems(a, c);
    TwoElems(a, b);
    assert b !in Elems([a, c]);
    hide Elems;
    OneMissLowers(d, [a, c], [hit, miss], k, a, b, Elems([a, c]));
  }

  lemma TwoLead(x: Context, y: Context)
    requires x.isSeed && !y.isSeed
    ensures SeedsLead([x, y])
  {
  }

  lemma OneMissLowers(d: nat -> real, expectedIds: seq<string>, cs: seq<Context>, k: int, a: string, b: string,
                      e: set<string>)
    requires Discount(d) && SeedsLead(cs) && e == Elems(Dedupe(Mapped(Text.Strip, expectedIds)))
    requires Retrieved(Dedupe(BaselineIds(cs)), k) == [a] && Retrieved(Dedupe(GraphIds(cs)), k) == [a, b]
    requires a in e && b !in e && |e| > 1
    ensures var c := Compared(d, expectedIds, cs, k); c.graph.ndcg < c.baseline.ndcg
  {
    hide BaselineIds, GraphIds, Compared, Dedupe, Retrieved, Mapped, GainFrom, IdealFrom, Ratio, Ndcg, Discount,
        SeedsLead;
    GraphLowersNdcgIff(d, expectedIds, cs, k);
    assert [a][0] == a && a in [a];
  }

  lemma TwoRetrieved(x: Context, y: Context, k: nat)
    requires x.isSeed && !y.isSeed && Tidy([x.chunkId, y.chunkId]) && k >= 2
    ensures Retrieved(Dedupe(BaselineIds([x, y])), k) == [x.chunkId]
    ensures Retrieved(Dedupe(GraphIds([x, y])), k) == [x.chunkId, y.chunkId]
  {
    hide Text.Strip, Dedupe, Retrieved;
    var a, b := x.chunkId, y.chunkId;
    assert [a, b][0] == a && [a, b][1] == b;
    TwoIds(x, y);
    hide BaselineIds, GraphIds;
    assert [a] + [b] == [a, b];
    TidyPrefix([a], b);
    TidyRetrieved([a], k);
    TidyRetrieved([a, b], k);
  }

  lemma TwoElems(a: string, b: string)
    requires Tidy([a, b])
    ensures a != b && Elems([a, b]) == {a, b} && |Elems([a, b])| == 2 && a in Elems([a, b])
  {
    hide Text.Strip;
    assert [a, b][0] != [a, b][1];
  }

  lemma TwoIds(x: Context, y: Context)
    requires x.isSeed && !y.isSeed && x.chunkId != "" && y.chunkId != ""
    ensures BaselineIds([x, y]) == [x.chunkId]
    ensures GraphIds([x, y]) == [x.chunkId] + [y.chunkId] == [x.chunkId, y.chunkId]
  {
    TwoFiltered(IsSeedWithChunk, x, y);
    TwoFiltered(HasChunk, x, y);
    MappedAppend(ChunkOf, [x], [y]);
    assert [x] + [y] == [x, y];
    assert Mapped(ChunkOf, [x]) == [x.chunkId];
  }
}
