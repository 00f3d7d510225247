/** The inverted-index algorithm of `_build_related_document_edges`
    (app/mneme/domains/graph/service.py), proved against the pairwise
    specification of module RelatedDocuments. Dictionaries are maps; a loop over
    a dictionary picks its keys in an arbitrary order. */
module RelatedIndex {
  import opened Sorting
  import opened RelatedDocuments

  type Posting = (string, Payload)

  // ----- step 1: the catalogue of every document

  method CollectCatalogs(env: Env, docs: map<string, Document>, entries: seq<Entry>)
    returns (byDoc: map<string, Catalog>)
    ensures forall d :: d in byDoc <==> d in docs && CatalogOf(env, entries, d) != map[]
    ensures forall d | d in byDoc :: byDoc[d] == CatalogOf(env, entries, d)
  {
    byDoc := map[];
    for i := 0 to |entries|
      invariant forall d :: d in byDoc <==> d in docs && CatalogOf(env, entries[..i], d) != map[]
      invariant forall d | d in byDoc :: byDoc[d] == CatalogOf(env, entries[..i], d)
    {
      var e := entries[i];
      assert entries[..i + 1][..i] == entries[..i];
      if e.documentId in docs && env.normalize(e.name) != "" {
        var c: Catalog := if e.documentId in byDoc then byDoc[e.documentId] else map[];
        byDoc := byDoc[e.documentId := Note(env, c, e)];
        assert SignatureOf(env, e) in Note(env, c, e);
      }
    }
    assert entries[..|entries|] == entries;
  }

  // ----- step 2: from signature to the documents that have it

  function PostingsAt(index: map<Signature, seq<Posting>>, s: Signature): seq<Posting> {
    if s in index then index[s] else []
  }

  method AddDocument(index: map<Signature, seq<Posting>>, d: string, c: Catalog)
    returns (r: map<Signature, seq<Posting>>)
    ensures r.Keys == index.Keys + c.Keys
    ensures forall s :: PostingsAt(r, s) == PostingsAt(index, s) + if s in c then [(d, c[s])] else []
  {
    r := index;
    var left := c.Keys;
    while left != {}
      invariant left <= c.Keys && r.Keys == index.Keys + (c.Keys - left)
      invariant forall s :: PostingsAt(r, s) == PostingsAt(index, s) + if s in c.Keys - left then [(d, c[s])] else []
      decreases left
    {
      var s :| s in left;
      left := left - {s};
      r := r[s := PostingsAt(r, s) + [(d, c[s])]];
    }
  }

  /** The posting list of `s`: every document of `byDoc` having `s`, once, with its payload. */
  ghost predicate IsPosting(list: seq<Posting>, byDoc: map<string, Catalog>, s: Signature) {
    && (forall i, j | 0 <= i < j < |list| :: list[i].0 != list[j].0)
    && (forall p | p in list :: p.0 in byDoc && s in byDoc[p.0] && p.1 == byDoc[p.0][s])
    && (forall d | d in byDoc && s in byDoc[d] :: (d, byDoc[d][s]) in list)
  }

  method InvertCatalogs(byDoc: map<string, Catalog>) returns (index: map<Signature, seq<Posting>>)
    ensures forall s :: IsPosting(PostingsAt(index, s), byDoc, s)
  {
    index := map[];
    var left := byDoc.Keys;
    ghost var done: map<string, Catalog> := map[];
    while left != {}
      invariant left <= byDoc.Keys && done.Keys == byDoc.Keys - left
      invariant forall d | d in done :: done[d] == byDoc[d]
      invariant forall s :: IsPosting(PostingsAt(index, s), done, s)
      decreases left
    {
      var d :| d in left;
      left := left - {d};
      ghost var before := index;
      index := AddDocument(index, d, byDoc[d]);
      ghost var was := done;
      done := done[d := byDoc[d]];
      forall s ensures IsPosting(PostingsAt(index, s), done, s) {
        assert IsPosting(PostingsAt(before, s), was, s);
        PostingExtended(PostingsAt(before, s), was, s, d, byDoc[d]);
      }
    }
    assert done == byDoc;
  }

  lemma PostingExtended(list: seq<Posting>, byDoc: map<string, Catalog>, s: Signature, d: string, c: Catalog)
    requires IsPosting(list, byDoc, s) && d !in byDoc
    ensures IsPosting(list + if s in c then [(d, c[s])] else [], byDoc[d := c], s)
  {
    assert list + [] == list;
    forall i | 0 <= i < |list| ensures list[i].0 != d {
      assert list[i] in list;
    }
  }

  // ----- step 3: one bucket per pair of documents

  /** `itertools.combinations(s, 2)`. */
  function Combinations<T>(s: seq<T>): seq<(T, T)> {
    if s == [] then []
    else seq(|s| - 1, i requires 0 <= i < |s| - 1 => (s[0], s[i + 1])) + Combinations(s[1..])
  }

  ghost predicate PairFrom<T>(s: seq<T>, p: (T, T)) {
    exists i, j :: 0 <= i < j < |s| && s[i] == p.0 && s[j] == p.1
  }

  lemma {:induction false} CombinationsArePairs<T>(s: seq<T>)
    ensures forall m | 0 <= m < |Combinations(s)| :: PairFrom(s, Combinations(s)[m])
    ensures forall i, j | 0 <= i < j < |s| :: (s[i], s[j]) in Combinations(s)
  {
    if s != [] {
      CombinationsArePairs(s[1..]);
      var head := seq(|s| - 1, i requires 0 <= i < |s| - 1 => (s[0], s[i + 1]));
      var c := Combinations(s);
      forall m | 0 <= m < |c| ensures PairFrom(s, c[m]) {
        if m < |head| {
          assert s[0] == c[m].0 && s[m + 1] == c[m].1;
        } else {
          assert c[m] == Combinations(s[1..])[m - |head|];
          var i, j :| 0 <= i < j < |s[1..]| && s[1..][i] == c[m].0 && s[1..][j] == c[m].1;
          assert s[i + 1] == c[m].0 && s[j + 1] == c[m].1;
        }
      }
      forall i, j | 0 <= i < j < |s| ensures (s[i], s[j]) in c {
        if i == 0 {
          assert head[j - 1] == (s[0], s[j]);
          assert head[j - 1] in head;
        } else {
          assert (s[1..][i - 1], s[1..][j - 1]) in Combinations(s[1..]);
        }
      }
    }
  }

  lemma {:induction false} CombinationsDistinct(s: seq<Posting>)
    requires forall i, j | 0 <= i < j < |s| :: s[i].0 != s[j].0
    ensures forall m, n | 0 <= m < n < |Combinations(s)| :: KeyOf(Combinations(s)[m]) != KeyOf(Combinations(s)[n])
  {
    if s != [] {
      CombinationsDistinct(s[1..]);
      CombinationsArePairs(s[1..]);
      var head := seq(|s| - 1, i requires 0 <= i < |s| - 1 => (s[0], s[i + 1]));
      var rest := Combinations(s[1..]);
      var c := Combinations(s);
      assert c == head + rest;
      forall m, n | 0 <= m < n < |c| ensures KeyOf(c[m]) != KeyOf(c[n]) {
        if m < |head| {
          assert c[m] == (s[0], s[m + 1]);
          if n < |head| {
            assert c[n] == (s[0], s[n + 1]);
          } else {
            assert c[n] == rest[n - |head|];
            var i, j :| 0 <= i < j < |s[1..]| && s[1..][i] == c[n].0 && s[1..][j] == c[n].1;
            assert c[n].0 == s[i + 1];
          }
        }
      }
    }
  }

  function KeyOf(p: (Posting, Posting)): Pair {
    (p.0.0, p.1.0)
  }

  const EMPTY: Bucket := Bucket([], {}, 0.0, 0.0)

  function BucketAt(buckets: map<Pair, Bucket>, k: Pair): Bucket {
    if k in buckets then buckets[k] else EMPTY
  }

  function Bump(env: Env, b: Bucket, l: Payload, r: Payload): Bucket {
    var chosen := Chosen(l, r);
    var importance := Max(l.importance, r.importance);
    Bucket(b.shared + [chosen.(importance := env.round4(importance))],
           b.types + {chosen.kind},
           Max(Max(b.max, l.importance), r.importance),
           b.total + importance)
  }

  predicate BothIn(linked: map<string, Payload>, k: Pair) {
    k.0 in linked && k.1 in linked && StrLess(k.0, k.1)
  }

  predicate PostingLess(x: Posting, y: Posting) {
    StrLess(x.0, y.0)
  }

  lemma PostingLessOrder(list: seq<Posting>)
    requires forall i, j | 0 <= i < j < |list| :: list[i].0 != list[j].0
    ensures WeakOrder(PostingLess) && StrictTotalOn(Elems(list), PostingLess) && Distinct(list)
  {
    StrWeakOrder();
    assert WeakOrder(PostingLess);
    WeakOrderTransitive(PostingLess);
    forall x, y | x in Elems(list) && y in Elems(list) ensures x == y || PostingLess(x, y) || PostingLess(y, x) {
      StrTrichotomy(x.0, y.0);
      var i :| 0 <= i < |list| && list[i] == x;
      var j :| 0 <= j < |list| && list[j] == y;
    }
  }

  lemma PostingOrder(list: seq<Posting>)
    requires forall i, j | 0 <= i < j < |list| :: list[i].0 != list[j].0
    ensures Increasing(Sort(list, PostingLess), PostingLess)
    ensures Elems(Sort(list, PostingLess)) == Elems(list)
  {
    PostingLessOrder(list);
    SortEnumerates(list, PostingLess);
  }

  /** In an increasing posting list, the smaller of two documents comes first. */
  lemma PostingPair(ordered: seq<Posting>, x: Posting, y: Posting)
    requires Increasing(ordered, PostingLess) && x in ordered && y in ordered && PostingLess(x, y)
    ensures (x, y) in Combinations(ordered)
  {
    CombinationsArePairs(ordered);
    var i :| 0 <= i < |ordered| && ordered[i] == x;
    var j :| 0 <= j < |ordered| && ordered[j] == y;
    StrTrichotomy(x.0, y.0);
    assert i != j && !(j < i);
  }

  /** The pairs of an ordered posting list: each pair of linked documents once, smaller identifier first. */
  ghost predicate PairsOf(pairs: seq<(Posting, Posting)>, linked: map<string, Payload>) {
    && (forall m, n | 0 <= m < n < |pairs| :: KeyOf(pairs[m]) != KeyOf(pairs[n]))
    && (forall m | 0 <= m < |pairs| :: BothIn(linked, KeyOf(pairs[m])))
    && (forall m | 0 <= m < |pairs| :: pairs[m].0.1 == linked[pairs[m].0.0] && pairs[m].1.1 == linked[pairs[m].1.0])
    && (forall k | BothIn(linked, k) :: exists m :: 0 <= m < |pairs| && KeyOf(pairs[m]) == k)
  }

  lemma FromOrdered(ordered: seq<Posting>, linked: map<string, Payload>, p: (Posting, Posting))
    requires Increasing(ordered, PostingLess) && PairFrom(ordered, p)
    requires forall q | q in ordered :: q.0 in linked && linked[q.0] == q.1
    ensures BothIn(linked, KeyOf(p)) && p.0.1 == linked[p.0.0] && p.1.1 == linked[p.1.0]
  {
    assert p.0 in ordered && p.1 in ordered;
  }

  lemma CombinationsArePairsOf(ordered: seq<Posting>, linked: map<string, Payload>)
    requires Increasing(ordered, PostingLess)
    requires forall p | p in ordered :: p.0 in linked && linked[p.0] == p.1
    requires forall d | d in linked :: (d, linked[d]) in ordered
    ensures PairsOf(Combinations(ordered), linked)
  {
    hide Combinations, Increasing, PairFrom, PostingLess;
    IncreasingDocuments(ordered);
    CombinationsArePairs(ordered);
    CombinationsDistinct(ordered);
    var pairs := Combinations(ordered);
    forall m | 0 <= m < |pairs|
      ensures BothIn(linked, KeyOf(pairs[m])) && pairs[m].0.1 == linked[pairs[m].0.0]
              && pairs[m].1.1 == linked[pairs[m].1.0]
    {
      assert PairFrom(ordered, pairs[m]);
      FromOrdered(ordered, linked, pairs[m]);
    }
    forall k | BothIn(linked, k) ensures exists m :: 0 <= m < |pairs| && KeyOf(pairs[m]) == k {
      var x, y := (k.0, linked[k.0]), (k.1, linked[k.1]);
      PostingPair(ordered, x, y);
      var n :| 0 <= n < |pairs| && pairs[n] == (x, y);
      assert KeyOf(pairs[n]) == k;
    }
  }

  /** The keys of the first `m` pairs. */
  ghost function KeySet(pairs: seq<(Posting, Posting)>, m: nat): set<Pair>
    requires m <= |pairs|
  {
    set n | 0 <= n < m :: KeyOf(pairs[n])
  }

  lemma KeySetNext(pairs: seq<(Posting, Posting)>, linked: map<string, Payload>, m: nat)
    requires PairsOf(pairs, linked) && m < |pairs|
    ensures var key := KeyOf(pairs[m]);
            && key !in KeySet(pairs, m) && KeySet(pairs, m + 1) == KeySet(pairs, m) + {key} && BothIn(linked, key)
            && pairs[m].0.1 == linked[key.0] && pairs[m].1.1 == linked[key.1]
  {
  }

  lemma KeySetAll(pairs: seq<(Posting, Posting)>, linked: map<string, Payload>)
    requires PairsOf(pairs, linked)
    ensures forall k :: k in KeySet(pairs, |pairs|) <==> BothIn(linked, k)
  {
  }

  /** The buckets after the pairs `done` have been bumped once each. */
  ghost predicate Bumped(env: Env, buckets: map<Pair, Bucket>, r: map<Pair, Bucket>, linked: map<string, Payload>,
                         done: set<Pair>)
  {
    && r.Keys == buckets.Keys + done
    && (forall k | k in done ::
          BothIn(linked, k) && r[k] == Bump(env, BucketAt(buckets, k), linked[k.0], linked[k.1]))
    && (forall k | k in buckets && k !in done :: r[k] == buckets[k])
  }

  lemma BumpedNext(env: Env, buckets: map<Pair, Bucket>, r: map<Pair, Bucket>, linked: map<string, Payload>,
                   done: set<Pair>, key: Pair)
    requires Bumped(env, buckets, r, linked, done) && key !in done && BothIn(linked, key)
    ensures Bumped(env, buckets, r[key := Bump(env, BucketAt(r, key), linked[key.0], linked[key.1])], linked,
                   done + {key})
  {
    hide Bump;
    assert BucketAt(r, key) == BucketAt(buckets, key);
  }

  /** Adds one shared signature: every pair of its documents is bumped exactly once. */
  method AddPairs(env: Env, buckets: map<Pair, Bucket>, pairs: seq<(Posting, Posting)>,
                  ghost linked: map<string, Payload>)
    returns (r: map<Pair, Bucket>)
    requires PairsOf(pairs, linked)
    ensures forall k :: k in r <==> k in buckets || BothIn(linked, k)
    ensures forall k | k in r ::
              r[k] == if BothIn(linked, k) then Bump(env, BucketAt(buckets, k), linked[k.0], linked[k.1])
                                         else buckets[k]
  {
    hide Bump, Bumped, PairsOf, KeySet, BothIn, BucketAt;
    r := buckets;
    NothingBumped(env, buckets, pairs, linked);
    for m := 0 to |pairs|
      invariant Bumped(env, buckets, r, linked, KeySet(pairs, m))
    {
      KeySetNext(pairs, linked, m);
      BumpedNext(env, buckets, r, linked, KeySet(pairs, m), KeyOf(pairs[m]));
      r := r[KeyOf(pairs[m]) := Bump(env, BucketAt(r, KeyOf(pairs[m])), pairs[m].0.1, pairs[m].1.1)];
    }
    AllBumped(env, buckets, r, pairs, linked);
  }

  lemma NothingBumped(env: Env, buckets: map<Pair, Bucket>, pairs: seq<(Posting, Posting)>,
                      linked: map<string, Payload>)
    ensures Bumped(env, buckets, buckets, linked, KeySet(pairs, 0))
  {
    hide Bump;
  }

  lemma AllBumped(env: Env, buckets: map<Pair, Bucket>, r: map<Pair, Bucket>, pairs: seq<(Posting, Posting)>,
                  linked: map<string, Payload>)
    requires PairsOf(pairs, linked) && Bumped(env, buckets, r, linked, KeySet(pairs, |pairs|))
    ensures forall k :: k in r <==> k in buckets || BothIn(linked, k)
    ensures forall k | k in r ::
              r[k] == if BothIn(linked, k) then Bump(env, BucketAt(buckets, k), linked[k.0], linked[k.1])
                                         else buckets[k]
  {
    KeySetAll(pairs, linked);
    hide Bump, PairsOf, KeySet, BucketAt;
  }

  lemma IncreasingDocuments(ordered: seq<Posting>)
    requires Increasing(ordered, PostingLess)
    ensures forall i, j | 0 <= i < j < |ordered| :: ordered[i].0 != ordered[j].0
  {
    forall i, j | 0 <= i < j < |ordered| ensures ordered[i].0 != ordered[j].0 {
      assert PostingLess(ordered[i], ordered[j]);
      StrTrichotomy(ordered[i].0, ordered[j].0);
    }
  }

  /** `b` sums up the signatures `S` shared by catalogues `l` and `r`. */
  ghost predicate Summarises(env: Env, b: Bucket, l: Catalog, r: Catalog, S: set<Signature>)
    requires S <= Shared(l, r)
  {
    && |b.shared| == |S|
    && (exists sigs :: Samples(b.shared, SharedItems(env, l, r, S), sigs))
    && b.types == Types(l, r, S)
    && IsMaxImportance(b.max, l, r, S)
    && b.total == Total(l, r, S)
  }

  lemma OneMoreSample(env: Env, shared: seq<Payload>, l: Catalog, r: Catalog, S: set<Signature>, sigs: seq<Signature>,
                      s: Signature)
    requires s in Shared(l, r) && s !in S && S <= Shared(l, r) && Samples(shared, SharedItems(env, l, r, S), sigs)
    ensures Samples(shared + [SharedItem(env, l[s], r[s])], SharedItems(env, l, r, S + {s}), sigs + [s])
  {
    assert forall i | 0 <= i < |sigs| :: sigs[i] in S;
  }

  lemma BumpSummarises(env: Env, b: Bucket, l: Catalog, r: Catalog, S: set<Signature>, s: Signature)
    requires s in Shared(l, r) && s !in S && S <= Shared(l, r) && Summarises(env, b, l, r, S)
    ensures Summarises(env, Bump(env, b, l[s], r[s]), l, r, S + {s})
  {
    var c := Bump(env, b, l[s], r[s]);
    assert c.types == Types(l, r, S + {s});
    BumpTotals(env, b, l, r, S, s);
    hide Samples, SharedItems, Types, Total, IsMaxImportance;
    var sigs :| Samples(b.shared, SharedItems(env, l, r, S), sigs);
    OneMoreSample(env, b.shared, l, r, S, sigs, s);
  }

  lemma BumpTotals(env: Env, b: Bucket, l: Catalog, r: Catalog, S: set<Signature>, s: Signature)
    requires s in Shared(l, r) && s !in S && S <= Shared(l, r)
    requires b.total == Total(l, r, S) && IsMaxImportance(b.max, l, r, S)
    ensures var c := Bump(env, b, l[s], r[s]);
            c.total == Total(l, r, S + {s}) && IsMaxImportance(c.max, l, r, S + {s})
  {
    hide IsMaxImportance;
    TotalAdd(l, r, S + {s}, s);
    assert S + {s} - {s} == S;
    MaxBumped(b.max, Bump(env, b, l[s], r[s]).max, l, r, S, s);
  }

  lemma MaxBumped(m: real, n: real, l: Catalog, r: Catalog, S: set<Signature>, s: Signature)
    requires s in Shared(l, r) && S <= Shared(l, r) && IsMaxImportance(m, l, r, S)
    requires n == Max(Max(m, l[s].importance), r[s].importance)
    ensures IsMaxImportance(n, l, r, S + {s})
  {
    if n != m {
      assert s in S + {s} && Max(l[s].importance, r[s].importance) == n;
    } else if m != 0.0 {
      var t :| t in S && Max(l[t].importance, r[t].importance) == m;
      assert t in S + {s};
    }
  }

  /** After the signatures `done`, the pair `k` has a bucket exactly if it shares one of them, and it sums them up. */
  ghost predicate BucketFor(env: Env, buckets: map<Pair, Bucket>, byDoc: map<string, Catalog>, done: set<Signature>,
                            k: Pair) {
    if k.0 in byDoc && k.1 in byDoc && StrLess(k.0, k.1) then
      && (k in buckets <==> Shared(byDoc[k.0], byDoc[k.1]) * done != {})
      && Summarises(env, BucketAt(buckets, k), byDoc[k.0], byDoc[k.1], Shared(byDoc[k.0], byDoc[k.1]) * done)
    else k !in buckets
  }

  lemma BucketStep(env: Env, before: map<Pair, Bucket>, after: map<Pair, Bucket>, byDoc: map<string, Catalog>,
                   linked: map<string, Payload>, done: set<Signature>, s: Signature, k: Pair)
    requires BucketFor(env, before, byDoc, done, k) && s !in done
    requires linked == map d | d in byDoc && s in byDoc[d] :: byDoc[d][s]
    requires k in after <==> k in before || BothIn(linked, k)
    requires k in after ==>
               after[k] == if BothIn(linked, k) then Bump(env, BucketAt(before, k), linked[k.0], linked[k.1])
                                        else before[k]
    ensures BucketFor(env, after, byDoc, done + {s}, k)
  {
    if k.0 in byDoc && k.1 in byDoc && StrLess(k.0, k.1) {
      var l, r := byDoc[k.0], byDoc[k.1];
      if s in Shared(l, r) {
        assert Shared(l, r) * (done + {s}) == Shared(l, r) * done + {s};
        BumpSummarises(env, BucketAt(before, k), l, r, Shared(l, r) * done, s);
      } else {
        assert Shared(l, r) * (done + {s}) == Shared(l, r) * done;
      }
    }
  }

  lemma NoBuckets(env: Env, byDoc: map<string, Catalog>)
    ensures forall k :: BucketFor(env, map[], byDoc, {}, k)
  {
    forall k ensures BucketFor(env, map[], byDoc, {}, k) {
      if k.0 in byDoc && k.1 in byDoc {
        NothingShared(env, byDoc[k.0], byDoc[k.1]);
      }
    }
  }

  lemma NothingShared(env: Env, l: Catalog, r: Catalog)
    ensures Shared(l, r) * {} == {} && Summarises(env, EMPTY, l, r, {})
  {
    assert Samples([], SharedItems(env, l, r, {}), []);
  }

  method FillBuckets(env: Env, index: map<Signature, seq<Posting>>, ghost byDoc: map<string, Catalog>)
    returns (buckets: map<Pair, Bucket>)
    requires forall s :: IsPosting(PostingsAt(index, s), byDoc, s)
    ensures forall k :: BucketFor(env, buckets, byDoc, index.Keys, k)
  {
    buckets := map[];
    var left := index.Keys;
    ghost var done: set<Signature> := {};
    NoBuckets(env, byDoc);
    hide BucketFor, IsPosting;
    while left != {}
      invariant left <= index.Keys && done == index.Keys - left
      invariant forall k :: BucketFor(env, buckets, byDoc, done, k)
      decreases left
    {
      var s :| s in left;
      left := left - {s};
      assert IsPosting(PostingsAt(index, s), byDoc, s);
      buckets := AddSignature(env, buckets, index[s], byDoc, done, s);
      done := done + {s};
    }
    assert done == index.Keys;
  }

  method AddSignature(env: Env, buckets: map<Pair, Bucket>, list: seq<Posting>,
                      ghost byDoc: map<string, Catalog>, ghost done: set<Signature>, ghost s: Signature)
    returns (r: map<Pair, Bucket>)
    requires IsPosting(list, byDoc, s) && s !in done
    requires forall k :: BucketFor(env, buckets, byDoc, done, k)
    ensures forall k :: BucketFor(env, r, byDoc, done + {s}, k)
  {
    ghost var linked := map d | d in byDoc && s in byDoc[d] :: byDoc[d][s];
    r := buckets;
    if |list| >= 2 {
      PostingOrder(list);
      var ordered := Sort(list, PostingLess);
      SortedPosting(list, ordered, byDoc, linked, s);
      CombinationsArePairsOf(ordered, linked);
      r := AddPairs(env, buckets, Combinations(ordered), linked);
    } else {
      LonePosting(list, byDoc, linked, s);
    }
    forall k ensures BucketFor(env, r, byDoc, done + {s}, k) {
      assert BucketFor(env, buckets, byDoc, done, k);
      BucketStep(env, buckets, r, byDoc, linked, done, s, k);
    }
  }

  lemma LonePosting(list: seq<Posting>, byDoc: map<string, Catalog>, linked: map<string, Payload>, s: Signature)
    requires IsPosting(list, byDoc, s) && |list| < 2
    requires linked == map d | d in byDoc && s in byDoc[d] :: byDoc[d][s]
    ensures forall k :: !BothIn(linked, k)
  {
    forall k ensures !BothIn(linked, k) {
      StrTrichotomy(k.0, k.0);
      if k.0 in linked && k.1 in linked {
        assert (k.0, linked[k.0]) in list && (k.1, linked[k.1]) in list;
      }
    }
  }

  lemma SortedPosting(list: seq<Posting>, ordered: seq<Posting>, byDoc: map<string, Catalog>,
                      linked: map<string, Payload>, s: Signature)
    requires IsPosting(list, byDoc, s) && Elems(ordered) == Elems(list)
    requires linked == map d | d in byDoc && s in byDoc[d] :: byDoc[d][s]
    ensures forall p | p in ordered :: p.0 in linked && linked[p.0] == p.1
    ensures forall d | d in linked :: (d, linked[d]) in ordered
  {
    forall p ensures p in ordered <==> p in list {
      assert p in Elems(ordered) <==> p in Elems(list);
    }
  }

  // ----- step 4: scoring, thresholds, order, cap, ranks

  function AtLeastOne(n: int): int {
    if n >= 1 then n else 1
  }

  /** The edge as computed from a bucket and the two catalogue sizes. */
  function ScoredEdge(env: Env, l: Document, r: Document, leftCount: nat, rightCount: nat, b: Bucket): Edge
    requires b.shared != []
  {
    var count := |b.shared|;
    var jaccard := count as real / AtLeastOne(leftCount + rightCount - count) as real;
    var overlap := count as real / AtLeastOne(Smaller(leftCount, rightCount)) as real;
    var avg := b.total / count as real;
    Edge("document:" + l.id, "document:" + r.id, count, b.types,
         env.round4(overlap), env.round4(jaccard), env.round4(avg),
         env.round4(Score(jaccard, overlap, avg, |b.types|, count)), env.round4(b.max),
         l.kb != r.kb, l.fileName, r.fileName, l.kb, r.kb)
  }

  /** A bucket that sums up all shared signatures yields the pairwise edge. */
  lemma ScoredEdgeIsPairwise(env: Env, l: Document, r: Document, a: Catalog, b: Catalog, bucket: Bucket)
    requires Shared(a, b) != {} && Summarises(env, bucket, a, b, Shared(a, b))
    ensures bucket.shared != [] && ScoredEdge(env, l, r, |a|, |b|, bucket) == EdgeOf(env, l, r, a, b)
  {
    NonEmptyCatalogs(a, b);
    MaxImportanceUnique(bucket.max, a, b, Shared(a, b));
  }

  predicate PairLess(x: Pair, y: Pair) {
    StrLess(x.0, y.0) || (x.0 == y.0 && StrLess(x.1, y.1))
  }

  predicate RelatedBefore(x: Related, y: Related) {
    EdgeBefore(x.edge, y.edge)
  }

  /** `x` is the edge of pair `k`, with a sample of at most eight of what the pair shares. */
  ghost predicate Describes(table: map<Pair, Pairing>, x: Related, k: Pair) {
    && k in table && x.edge == table[k].edge
    && |x.shared| == Smaller(8, x.edge.sharedCount)
    && exists sigs :: Samples(x.shared, table[k].items, sigs)
  }

  /** The bucket of `k` holds what the specification says of `k`. */
  ghost predicate Complete(env: Env, docs: map<string, Document>, entries: seq<Entry>, byDoc: map<string, Catalog>,
                           buckets: map<Pair, Bucket>, k: Pair)
  {
    if RelatedPair(env, docs, entries, k) then
      && k in buckets && k.0 in byDoc && k.1 in byDoc
      && byDoc[k.0] == CatalogOf(env, entries, k.0) && byDoc[k.1] == CatalogOf(env, entries, k.1)
      && Summarises(env, buckets[k], byDoc[k.0], byDoc[k.1], Shared(byDoc[k.0], byDoc[k.1]))
    else k !in buckets
  }

  lemma BucketsComplete(env: Env, docs: map<string, Document>, entries: seq<Entry>, byDoc: map<string, Catalog>,
                        index: map<Signature, seq<Posting>>, buckets: map<Pair, Bucket>, k: Pair)
    requires forall d :: d in byDoc <==> d in docs && CatalogOf(env, entries, d) != map[]
    requires forall d | d in byDoc :: byDoc[d] == CatalogOf(env, entries, d)
    requires forall s :: IsPosting(PostingsAt(index, s), byDoc, s)
    requires BucketFor(env, buckets, byDoc, index.Keys, k)
    ensures Complete(env, docs, entries, byDoc, buckets, k)
  {
    if k.0 in byDoc && k.1 in byDoc {
      var l, r := byDoc[k.0], byDoc[k.1];
      forall s | s in Shared(l, r) ensures s in index.Keys {
        assert IsPosting(PostingsAt(index, s), byDoc, s);
        assert (k.0, l[s]) in PostingsAt(index, s);
      }
      assert Shared(l, r) * index.Keys == Shared(l, r);
    }
  }

  method Keys(buckets: map<Pair, Bucket>) returns (keys: seq<Pair>)
    ensures Distinct(keys) && forall k :: k in keys <==> k in buckets
  {
    keys := [];
    var left := buckets.Keys;
    while left != {}
      invariant left <= buckets.Keys && Distinct(keys)
      invariant forall k :: k in keys <==> k in buckets && k !in left
      decreases left
    {
      var k :| k in left;
      left := left - {k};
      keys := keys + [k];
    }
  }

  /** `sorted(pair_buckets.items())`; the keys are distinct, so only they are compared. */
  method SortedKeys(buckets: map<Pair, Bucket>) returns (keys: seq<Pair>)
    ensures Distinct(keys) && forall k :: k in keys <==> k in buckets
  {
    var unordered := Keys(buckets);
    keys := Sort(unordered, PairLess);
    DistinctMultiset(unordered);
    MultisetDistinct(keys);
    forall k ensures k in keys <==> k in unordered {
      assert k in multiset(keys) <==> k in multiset(unordered);
    }
  }

  /** `list` describes the pairs of `from` one for one. */
  ghost predicate DescribesAll(table: map<Pair, Pairing>, list: seq<Related>, from: seq<Pair>) {
    && |list| == |from| && Distinct(from)
    && forall i | 0 <= i < |list| :: Describes(table, list[i], from[i])
  }

  predicate HasBucket(docs: map<string, Document>, byDoc: map<string, Catalog>, buckets: map<Pair, Bucket>, k: Pair) {
    k in buckets && buckets[k].shared != [] && k.0 in byDoc && k.1 in byDoc && k.0 in docs && k.1 in docs
  }

  /** The edge of one bucket, with its sample; the rank is assigned later. */
  function ScoredBucket(env: Env, docs: map<string, Document>, byDoc: map<string, Catalog>,
                        buckets: map<Pair, Bucket>, k: Pair)
    : Related
    requires HasBucket(docs, byDoc, buckets, k)
  {
    var b := buckets[k];
    Related(ScoredEdge(env, docs[k.0], docs[k.1], |byDoc[k.0]|, |byDoc[k.1]|, b), b.shared[..Smaller(8, |b.shared|)], 0)
  }

  lemma ScoredBucketDescribes(env: Env, docs: map<string, Document>, entries: seq<Entry>, byDoc: map<string, Catalog>,
                              buckets: map<Pair, Bucket>, k: Pair)
    requires Complete(env, docs, entries, byDoc, buckets, k)
    ensures k in buckets <==> k in RelatedTable(env, docs, entries)
    ensures k in buckets ==> HasBucket(docs, byDoc, buckets, k)
                             && Describes(RelatedTable(env, docs, entries),
                                          ScoredBucket(env, docs, byDoc, buckets, k), k)
  {
    RelatedTableAt(env, docs, entries, k);
    if k in buckets {
      ScoredEdgeIsPairwise(env, docs[k.0], docs[k.1], byDoc[k.0], byDoc[k.1], buckets[k]);
      SampleItems(env, buckets[k], byDoc[k.0], byDoc[k.1], Smaller(8, |buckets[k].shared|));
    }
  }

  /** The first memories of a bucket are a sample of distinct ones. */
  lemma SampleItems(env: Env, b: Bucket, l: Catalog, r: Catalog, n: nat)
    requires Summarises(env, b, l, r, Shared(l, r)) && n <= |b.shared|
    ensures exists sigs :: Samples(b.shared[..n], SharedItems(env, l, r, Shared(l, r)), sigs)
  {
    var items := SharedItems(env, l, r, Shared(l, r));
    var sigs :| Samples(b.shared, items, sigs);
    assert Samples(b.shared[..n], items, sigs[..n]);
  }

  lemma DescribedStep(table: map<Pair, Pairing>, list: seq<Related>, from: seq<Pair>, x: Related, k: Pair)
    requires DescribesAll(table, list, from) && Describes(table, x, k) && k !in from
    ensures DescribesAll(table, list + [x], from + [k])
  {
  }

  ghost predicate Scorable(env: Env, docs: map<string, Document>, byDoc: map<string, Catalog>,
                           buckets: map<Pair, Bucket>,
                           table: map<Pair, Pairing>, k: Pair)
  {
    HasBucket(docs, byDoc, buckets, k) && Describes(table, ScoredBucket(env, docs, byDoc, buckets, k), k)
  }

  method ScoreBucket(env: Env, docs: map<string, Document>, byDoc: map<string, Catalog>, buckets: map<Pair, Bucket>,
                     k: Pair,
                     ghost table: map<Pair, Pairing>)
    returns (x: Related)
    requires Scorable(env, docs, byDoc, buckets, table, k)
    ensures Describes(table, x, k) && k in table && x.edge == table[k].edge
  {
    x := ScoredBucket(env, docs, byDoc, buckets, k);
  }

  method ScoreBuckets(env: Env, docs: map<string, Document>, byDoc: map<string, Catalog>, buckets: map<Pair, Bucket>,
                      minCount: int, minScore: real, ghost table: map<Pair, Pairing>)
    returns (list: seq<Related>, ghost from: seq<Pair>)
    requires buckets.Keys == table.Keys
    requires forall k | k in buckets :: Scorable(env, docs, byDoc, buckets, table, k)
    ensures DescribesAll(table, list, from)
    ensures forall k :: k in from <==> PassingPair(table, minCount, minScore, k)
  {
    var keys := SortedKeys(buckets);
    list, from := [], [];
    hide Describes, Scorable;
    for i := 0 to |keys|
      invariant DescribesAll(table, list, from)
      invariant forall k :: k in from <==> k in keys[..i] && PassingPair(table, minCount, minScore, k)
    {
      var k := keys[i];
      var x := ScoreBucket(env, docs, byDoc, buckets, k, table);
      TakeOneMore(keys, i);
      if x.edge.sharedCount >= minCount && x.edge.score >= minScore {
        DescribedStep(table, list, from, x, k);
        list, from := list + [x], from + [k];
      }
    }
    assert keys[..|keys|] == keys;
  }

  function EdgeIn(x: Related): Edge {
    x.edge
  }

  function Edges(list: seq<Related>): seq<Edge> {
    Mapped(EdgeIn, list)
  }

  lemma DescribedEdges(table: map<Pair, Pairing>, list: seq<Related>, from: seq<Pair>, minCount: int, minScore: real)
    requires EndsIdentify(table) && DescribesAll(table, list, from)
    requires forall k :: k in from <==> PassingPair(table, minCount, minScore, k)
    ensures Distinct(Edges(list)) && Elems(Edges(list)) == Qualifying(table, minCount, minScore)
  {
    forall i | 0 <= i < |list| ensures Edges(list)[i] in Qualifying(table, minCount, minScore) {
      assert Describes(table, list[i], from[i]) && from[i] in from;
    }
    forall e | e in Qualifying(table, minCount, minScore) ensures e in Edges(list) {
      var k :| k in table && PassingPair(table, minCount, minScore, k) && e == table[k].edge;
      var i :| 0 <= i < |from| && from[i] == k;
      assert Edges(list)[i] == e;
    }
  }

  /** Sorting scored pairs sorts their edges. */
  lemma SortedEdges(list: seq<Related>)
    ensures Edges(Sort(list, RelatedBefore)) == Sort(Edges(list), EdgeBefore)
  {
    SortMapped(EdgeIn, list, RelatedBefore, EdgeBefore);
  }

  method AnnotateRanks(list: seq<Related>) returns (r: seq<Related>)
    ensures |r| == |list|
    ensures forall i | 0 <= i < |r| :: r[i] == list[i].(rank := i + 1)
  {
    r := list;
    for i := 0 to |list|
      invariant |r| == |list|
      invariant forall j | 0 <= j < |r| :: r[j] == if j < i then list[j].(rank := j + 1) else list[j]
    {
      r := r[i := r[i].(rank := i + 1)];
    }
  }

  ghost predicate Describable(table: map<Pair, Pairing>, x: Related) {
    exists k :: Describes(table, x, k)
  }

  /** The whole algorithm returns exactly the qualifying pairs, best first, cut to the cap and ranked from one. */
  method BuildRelatedEdges(env: Env, documents: seq<Document>, entries: seq<Entry>,
                           minCount: int, minScore: real, cap: Cap)
    returns (related: seq<Related>)
    ensures EndsIdentify(RelatedTable(env, DocMap(documents), entries))
    ensures Edges(related) == Cut(EdgeList(RelatedTable(env, DocMap(documents), entries), minCount, minScore), cap)
    ensures BestOf(Edges(related), AllEdges(RelatedTable(env, DocMap(documents), entries)), minCount, minScore, cap)
    ensures forall i | 0 <= i < |related| :: related[i].rank == i + 1
    ensures forall i | 0 <= i < |related| :: Describable(RelatedTable(env, DocMap(documents), entries), related[i])
  {
    DocMapIdentified(documents);
    var docs := DocMap(documents);
    ghost var table := RelatedTable(env, docs, entries);
    RelatedTableEnds(env, docs, entries);
    var list := ScoredList(env, docs, entries, minCount, minScore);
    EdgeOrder(Qualifying(table, minCount, minScore));
    SortedEdges(list);
    SortEnumerates(Edges(list), EdgeBefore);
    EdgeListKeepsBest(table, minCount, minScore, cap);
    hide BestOf;
    var sorted := Sort(list, RelatedBefore);
    related := AnnotateRanks(Cut(sorted, cap));
    FinishedList(table, list, sorted, related, cap);
  }

  lemma FinishedList(table: map<Pair, Pairing>, list: seq<Related>, sorted: seq<Related>, related: seq<Related>,
                     cap: Cap)
    requires forall x | x in list :: Describable(table, x)
    requires multiset(sorted) == multiset(list) && |related| == |Cut(sorted, cap)|
    requires forall i | 0 <= i < |related| :: related[i] == Cut(sorted, cap)[i].(rank := i + 1)
    ensures Edges(related) == Cut(Edges(sorted), cap)
    ensures forall i | 0 <= i < |related| :: Describable(table, related[i])
  {
    CutMapped(sorted, cap);
    CutIsPrefix(sorted, cap);
    hide Cut;
    assert Mapped(EdgeIn, related) == Mapped(EdgeIn, Cut(sorted, cap));
    forall i | 0 <= i < |related| ensures Describable(table, related[i]) {
      assert sorted[i] in multiset(sorted);
      RankIsFree(table, sorted[i], i + 1);
    }
  }

  lemma RankIsFree(table: map<Pair, Pairing>, x: Related, rank: nat)
    requires Describable(table, x)
    ensures Describable(table, x.(rank := rank))
  {
    var k :| Describes(table, x, k);
    assert Describes(table, x.(rank := rank), k);
  }

  lemma CutMapped(s: seq<Related>, cap: Cap)
    ensures Mapped(EdgeIn, Cut(s, cap)) == Cut(Mapped(EdgeIn, s), cap)
  {
    if cap.AtMost? {
      SliceMapped(EdgeIn, s, cap.n);
    }
  }

  lemma AllScorable(env: Env, docs: map<string, Document>, entries: seq<Entry>, byDoc: map<string, Catalog>,
                    index: map<Signature, seq<Posting>>, buckets: map<Pair, Bucket>)
    requires forall d :: d in byDoc <==> d in docs && CatalogOf(env, entries, d) != map[]
    requires forall d | d in byDoc :: byDoc[d] == CatalogOf(env, entries, d)
    requires forall s :: IsPosting(PostingsAt(index, s), byDoc, s)
    requires forall k :: BucketFor(env, buckets, byDoc, index.Keys, k)
    ensures buckets.Keys == RelatedTable(env, docs, entries).Keys
    ensures forall k | k in buckets :: Scorable(env, docs, byDoc, buckets, RelatedTable(env, docs, entries), k)
  {
    hide BucketFor, Complete, Describes, HasBucket, ScoredBucket, IsPosting, RelatedTable;
    forall k ensures k in buckets <==> k in RelatedTable(env, docs, entries)
      ensures k in buckets ==> Scorable(env, docs, byDoc, buckets, RelatedTable(env, docs, entries), k)
    {
      assert BucketFor(env, buckets, byDoc, index.Keys, k);
      BucketsComplete(env, docs, entries, byDoc, index, buckets, k);
      ScoredBucketDescribes(env, docs, entries, byDoc, buckets, k);
    }
  }

  method ScoredList(env: Env, docs: map<string, Document>, entries: seq<Entry>, minCount: int, minScore: real)
    returns (list: seq<Related>)
    requires EndsIdentify(RelatedTable(env, docs, entries))
    ensures Distinct(Edges(list))
    ensures Elems(Edges(list)) == Qualifying(RelatedTable(env, docs, entries), minCount, minScore)
    ensures forall x | x in list :: Describable(RelatedTable(env, docs, entries), x)
  {
    hide RelatedTable, EndsIdentify, Qualifying;
    ghost var table := RelatedTable(env, docs, entries);
    var byDoc := CollectCatalogs(env, docs, entries);
    var index := InvertCatalogs(byDoc);
    var buckets := FillBuckets(env, index, byDoc);
    AllScorable(env, docs, entries, byDoc, index, buckets);
    hide Scorable;
    ghost var from: seq<Pair>;
    list, from := ScoreBuckets(env, docs, byDoc, buckets, minCount, minScore, table);
    DescribedEdges(table, list, from, minCount, minScore);
    forall x | x in list ensures Describable(table, x) {
      var i :| 0 <= i < |list| && list[i] == x;
      assert Describes(table, list[i], from[i]);
    }
  }
}
