/** Retrieval metrics over ranked lists of chunk identifiers (app/mneme/domains/eval/service.py).
    `1 / log2(i + 1)`, the discount of position `i`, is any positive strictly decreasing function here. */
module RetrievalMetrics {
  import opened Sorting
  import opened Text

  // ----- identifiers

  /** The non-empty items, each at its first occurrence. */
  function Dedupe(items: seq<string>): (r: seq<string>)
    ensures Distinct(r)
    ensures forall x :: x in r <==> x in items && x != ""
  {
    if items == [] then []
    else
      var n := |items| - 1;
      var r := Dedupe(items[..n]);
      assert items == items[..n] + [items[n]];
      if items[n] == "" || items[n] in r then r else r + [items[n]]
  }

  method DedupePreserveOrder(items: seq<string>) returns (result: seq<string>)
    ensures result == Dedupe(items)
  {
    var seen: set<string> := {};
    result := [];
    for i := 0 to |items|
      invariant result == Dedupe(items[..i])
      invariant seen == Elems(result)
    {
      var item := items[i];
      assert items[..i + 1][..i] == items[..i];
      if item == "" || item in seen {
        continue;
      }
      seen := seen + {item};
      result := result + [item];
    }
    assert items[..|items|] == items;
  }

  /** More items only add identifiers at the end. */
  lemma {:induction false} DedupeGrows(a: seq<string>, b: seq<string>)
    ensures Dedupe(a) <= Dedupe(a + b)
    decreases b
  {
    if b == [] {
      assert a + b == a;
    } else {
      var n := |b| - 1;
      assert (a + b)[..|a + b| - 1] == a + b[..n];
      DedupeGrows(a, b[..n]);
    }
  }

  ghost predicate FirstAt(items: seq<string>, x: string, p: nat) {
    p < |items| && items[p] == x && x !in items[..p]
  }

  /** Identifiers keep the order in which they first occur. */
  lemma {:induction false} DedupeKeepsOrder(items: seq<string>, i: nat, j: nat)
    requires i < j < |Dedupe(items)|
    ensures exists p: nat, q: nat :: p < q && FirstAt(items, Dedupe(items)[i], p) && FirstAt(items, Dedupe(items)[j], q)
  {
    var n := |items| - 1;
    var front, r := items[..n], Dedupe(items[..n]);
    assert items == front + [items[n]];
    forall x, p: nat | FirstAt(front, x, p) ensures FirstAt(items, x, p) {
      assert items[..p] == front[..p];
    }
    if j < |r| {
      DedupeKeepsOrder(front, i, j);
      var p: nat, q: nat :| p < q && FirstAt(front, r[i], p) && FirstAt(front, r[j], q);
      assert FirstAt(items, r[i], p) && FirstAt(items, r[j], q);
      assert Dedupe(items)[i] == r[i] && Dedupe(items)[j] == r[j];
    } else {
      assert Dedupe(items) == r + [items[n]];
      assert items[n] !in front;
      assert FirstAt(items, items[n], n);
      var p := FirstPosition(front, r[i]);
      assert p < n && FirstAt(items, r[i], p);
      assert Dedupe(items)[i] == r[i] && Dedupe(items)[j] == items[n];
    }
  }

  lemma {:induction false} FirstPosition(items: seq<string>, x: string) returns (p: nat)
    requires x in items
    ensures FirstAt(items, x, p)
  {
    var n := |items| - 1;
    assert items == items[..n] + [items[n]];
    if x in items[..n] {
      p := FirstPosition(items[..n], x);
      assert items[..n][..p] == items[..p];
    } else {
      p := n;
    }
  }

  function NonEmpty(s: string): bool {
    s != ""
  }

  /** Deduplicating twice is deduplicating once. */
  lemma {:induction false} DedupeTidy(s: seq<string>)
    requires Distinct(s) && "" !in s
    ensures Dedupe(s) == s
  {
    if s != [] {
      var n := |s| - 1;
      assert s[n] in s && s == s[..n] + [s[n]];
      DedupeTidy(s[..n]);
    }
  }

  /** The identifiers a ranking is judged by; "" stands for a missing one. */
  function Retrieved(chunkIds: seq<string>, k: int): seq<string> {
    Slice(Dedupe(Mapped(Strip, Filter(NonEmpty, chunkIds))), k)
  }

  lemma SliceIsPrefix(s: seq<string>, k: int)
    ensures Slice(s, k) <= s
    ensures Distinct(s) ==> Distinct(Slice(s, k))
    ensures forall x | x in Slice(s, k) :: x in s
  {
  }

  lemma RetrievedTidy(chunkIds: seq<string>, k: int)
    ensures Distinct(Retrieved(chunkIds, k)) && "" !in Retrieved(chunkIds, k)
  {
    SliceIsPrefix(Dedupe(Mapped(Strip, Filter(NonEmpty, chunkIds))), k);
  }

  lemma SliceGrows<T>(a: seq<T>, b: seq<T>, k: int)
    requires a <= b
    ensures Slice(a, k) <= Slice(b, k)
  {
  }

  /** A longer ranking is judged by a longer list, for every cut-off, even a negative one. */
  lemma RetrievedGrows(a: seq<string>, b: seq<string>, k: int)
    requires a <= b
    ensures Retrieved(a, k) <= Retrieved(b, k)
  {
    var c := b[|a|..];
    assert b == a + c;
    FilterAppend(NonEmpty, a, c);
    MappedAppend(Strip, Filter(NonEmpty, a), Filter(NonEmpty, c));
    DedupeGrows(Mapped(Strip, Filter(NonEmpty, a)), Mapped(Strip, Filter(NonEmpty, c)));
    SliceGrows(Dedupe(Mapped(Strip, Filter(NonEmpty, a))), Dedupe(Mapped(Strip, Filter(NonEmpty, b))), k);
  }

  // ----- metrics

  ghost predicate Discount(d: nat -> real) {
    && (forall i: nat | i >= 1 :: d(i) > 0.0)
    && (forall i: nat, j: nat | 1 <= i < j :: d(i) > d(j))
  }

  function Recall(expected: set<string>, retrieved: seq<string>): real {
    if expected == {} then 1.0 else |expected * Elems(retrieved)| as real / |expected| as real
  }

  /** The position of the first hit, or the length of the list. */
  function FirstHit(expected: set<string>, retrieved: seq<string>): (i: nat)
    ensures i <= |retrieved| && (forall j | 0 <= j < i :: retrieved[j] !in expected)
    ensures i < |retrieved| ==> retrieved[i] in expected
  {
    if retrieved == [] || retrieved[0] in expected then 0 else 1 + FirstHit(expected, retrieved[1..])
  }

  function Mrr(expected: set<string>, retrieved: seq<string>): real {
    if expected == {} then 1.0
    else if FirstHit(expected, retrieved) == |retrieved| then 0.0
    else 1.0 / (FirstHit(expected, retrieved) + 1) as real
  }

  function Gain(d: nat -> real, expected: set<string>, x: string, position: nat): real {
    if x in expected then d(position) else 0.0
  }

  function Dcg(d: nat -> real, expected: set<string>, retrieved: seq<string>): real {
    if retrieved == [] then 0.0
    else Dcg(d, expected, retrieved[..|retrieved| - 1]) + Gain(d, expected, retrieved[|retrieved| - 1], |retrieved|)
  }

  function Ideal(d: nat -> real, n: nat): real {
    if n == 0 then 0.0 else Ideal(d, n - 1) + d(n)
  }

  function Ndcg(d: nat -> real, expected: set<string>, retrieved: seq<string>): real {
    if expected == {} then 1.0
    else
      var ideal := Ideal(d, Smaller(|expected|, |retrieved|));
      if ideal == 0.0 then 0.0 else Ratio(Dcg(d, expected, retrieved), ideal)
  }

  function Ratio(n: real, m: real): real
    requires m != 0.0
  {
    n / m
  }

  datatype Metrics = Metrics(recall: real, mrr: real, ndcg: real, sourceHit: bool, expectedCount: nat,
                             retrievedCount: nat)

  function MetricsOf(d: nat -> real, expected: seq<string>, retrieved: seq<string>): Metrics {
    var e := Elems(expected);
    Metrics(Recall(e, retrieved), Mrr(e, retrieved), Ndcg(d, e, retrieved),
            e == {} || e * Elems(retrieved) != {}, |expected|, |retrieved|)
  }

  function Evaluation(d: nat -> real, expectedIds: seq<string>, chunkIds: seq<string>, k: int): Metrics {
    MetricsOf(d, Dedupe(Mapped(Strip, expectedIds)), Retrieved(chunkIds, k))
  }

  // ----- the loops

  method CalculateMrr(expectedIds: seq<string>, retrieved: seq<string>) returns (mrr: real)
    ensures mrr == Mrr(Elems(expectedIds), retrieved)
  {
    var expected := Elems(expectedIds);
    if expected == {} {
      return 1.0;
    }
    for i := 0 to |retrieved|
      invariant forall j | 0 <= j < i :: retrieved[j] !in expected
    {
      if retrieved[i] in expected {
        return 1.0 / (i + 1) as real;
      }
    }
    return 0.0;
  }

  method CalculateNdcg(d: nat -> real, expectedIds: seq<string>, retrieved: seq<string>) returns (ndcg: real)
    ensures ndcg == Ndcg(d, Elems(expectedIds), retrieved)
  {
    var expected := Elems(expectedIds);
    if expected == {} {
      return 1.0;
    }
    var dcg := 0.0;
    for i := 0 to |retrieved|
      invariant dcg == Dcg(d, expected, retrieved[..i])
    {
      TakeOneMore(retrieved, i);
      assert retrieved[..i + 1][..i] == retrieved[..i];
      if retrieved[i] in expected {
        dcg := dcg + d(i + 1);
      }
    }
    assert retrieved[..|retrieved|] == retrieved;
    var idealHits := Smaller(|expected|, |retrieved|);
    if idealHits == 0 {
      return 0.0;
    }
    var idcg := 0.0;
    for i := 1 to idealHits + 1
      invariant idcg == Ideal(d, i - 1)
    {
      idcg := idcg + d(i);
    }
    return if idcg != 0.0 then dcg / idcg else 0.0;
  }

  method EvaluateRetrieval(d: nat -> real, expectedIds: seq<string>, chunkIds: seq<string>, k: int) returns (m: Metrics)
    ensures m == Evaluation(d, expectedIds, chunkIds, k)
  {
    var expected := DedupePreserveOrder(Mapped(Strip, expectedIds));
    var unique := DedupePreserveOrder(Mapped(Strip, Filter(NonEmpty, chunkIds)));
    var retrieved := Slice(unique, k);
    var e := Elems(expected);
    var mrr := CalculateMrr(expected, retrieved);
    var ndcg := CalculateNdcg(d, expected, retrieved);
    m := Metrics(Recall(e, retrieved), mrr, ndcg, e == {} || e * Elems(retrieved) != {}, |expected|, |retrieved|);
  }

  // ----- what an evaluation says

  /** The expected identifiers: stripped, and not blank. */
  ghost function Wanted(expectedIds: seq<string>): set<string> {
    set x | x in expectedIds && Strip(x) != "" :: Strip(x)
  }

  /** Position `i` holds the first hit. */
  ghost predicate FirstHitAt(expected: set<string>, retrieved: seq<string>, i: nat) {
    i < |retrieved| && retrieved[i] in expected && forall j | 0 <= j < i :: retrieved[j] !in expected
  }

  /** The reciprocal rank is that of the first hit, and 0 without a hit. */
  lemma MrrMeans(expected: set<string>, retrieved: seq<string>)
    ensures expected == {} ==> Mrr(expected, retrieved) == 1.0
    ensures expected != {} && (forall x | x in retrieved :: x !in expected) ==> Mrr(expected, retrieved) == 0.0
    ensures forall i: nat | FirstHitAt(expected, retrieved, i) :: Mrr(expected, retrieved) == 1.0 / (i + 1) as real
  {
    var n := FirstHit(expected, retrieved);
    assert n < |retrieved| ==> retrieved[n] in retrieved;
    forall i: nat | FirstHitAt(expected, retrieved, i) ensures n == i {
    }
  }

  /** What the positions of a set weigh together. */
  ghost function Weight(d: nat -> real, positions: set<nat>): real {
    if positions == {} then 0.0
    else
      var i :| i in positions;
      d(i) + Weight(d, positions - {i})
  }

  lemma {:induction false} WeightWithout(d: nat -> real, positions: set<nat>, i: nat)
    requires i in positions
    ensures Weight(d, positions) == d(i) + Weight(d, positions - {i})
    decreases positions
  {
    var j :| j in positions && Weight(d, positions) == d(j) + Weight(d, positions - {j});
    if j != i {
      WeightWithout(d, positions - {j}, i);
      WeightWithout(d, positions - {i}, j);
      assert positions - {j} - {i} == positions - {i} - {j};
    }
  }

  /** The positions, counted from one, that hold a hit. */
  ghost function HitPositions(expected: set<string>, retrieved: seq<string>): set<nat> {
    set i: nat | i <= |retrieved| && HitAt(expected, retrieved, i)
  }

  predicate HitAt(expected: set<string>, retrieved: seq<string>, i: nat) {
    1 <= i <= |retrieved| && retrieved[i - 1] in expected
  }

  ghost function FirstPositions(n: nat): set<nat> {
    set i: nat | i <= n && AmongFirst(i, n)
  }

  predicate AmongFirst(i: nat, n: nat) {
    1 <= i <= n
  }

  lemma {:induction false} DcgIsWeight(d: nat -> real, expected: set<string>, retrieved: seq<string>)
    ensures Dcg(d, expected, retrieved) == Weight(d, HitPositions(expected, retrieved))
    decreases |retrieved|
  {
    var n := |retrieved|;
    if n == 0 {
      assert HitPositions(expected, retrieved) == {};
    } else {
      var front := retrieved[..n - 1];
      DcgIsWeight(d, expected, front);
      if retrieved[n - 1] in expected {
        assert HitPositions(expected, retrieved) - {n} == HitPositions(expected, front);
        WeightWithout(d, HitPositions(expected, retrieved), n);
      } else {
        assert HitPositions(expected, retrieved) == HitPositions(expected, front);
      }
    }
  }

  lemma {:induction false} IdealIsWeight(d: nat -> real, n: nat)
    ensures Ideal(d, n) == Weight(d, FirstPositions(n))
  {
    if n == 0 {
      assert FirstPositions(n) == {};
    } else {
      assert FirstPositions(n) - {n} == FirstPositions(n - 1);
      IdealIsWeight(d, n - 1);
      WeightWithout(d, FirstPositions(n), n);
    }
  }

  /** NDCG is the weight of the positions that hold a hit, as a share of that of as many first positions as hits were
      possible. */
  lemma NdcgMeans(d: nat -> real, expected: set<string>, retrieved: seq<string>)
    requires Discount(d)
    ensures expected == {} ==> Ndcg(d, expected, retrieved) == 1.0
    ensures expected != {} && retrieved == [] ==> Ndcg(d, expected, retrieved) == 0.0
    ensures expected != {} && retrieved != [] ==>
              var possible := if |expected| <= |retrieved| then |expected| else |retrieved|;
              Ndcg(d, expected, retrieved) * Weight(d, FirstPositions(possible))
              == Weight(d, HitPositions(expected, retrieved))
  {
    hide Dcg, Weight;
    DcgIsWeight(d, expected, retrieved);
    var possible := Smaller(|expected|, |retrieved|);
    IdealIsWeight(d, possible);
    if expected != {} && retrieved != [] {
      IdealGrows(d, 0, possible);
      RatioTimes(Dcg(d, expected, retrieved), Ideal(d, possible));
    }
  }

  /** Every number of an evaluation in terms of the wanted and the retrieved identifiers. */
  lemma EvaluationTells(d: nat -> real, expectedIds: seq<string>, chunkIds: seq<string>, k: int)
    ensures var m := Evaluation(d, expectedIds, chunkIds, k);
            var wanted, found := Wanted(expectedIds), Retrieved(chunkIds, k);
            && m.expectedCount == |wanted| && m.retrievedCount == |found|
            && (k >= 0 ==> |found| <= k)
            && (forall x | x in found :: x != "" && exists c :: c in chunkIds && x == Strip(c))
            && (m.sourceHit <==> wanted == {} || exists x :: x in found && x in wanted)
            && (if wanted == {} then m.recall == 1.0
                else m.recall * |wanted| as real == |set x | x in found && x in wanted| as real)
            && m.mrr == Mrr(wanted, found) && m.ndcg == Ndcg(d, wanted, found)
  {
    hide Mrr, Ndcg, Strip, Retrieved, Wanted, Recall, Elems, Dedupe, Mapped;
    var wanted, found := Wanted(expectedIds), Retrieved(chunkIds, k);
    WantedIsExpected(expectedIds);
    RetrievedFrom(chunkIds, k);
    RecallMeans(wanted, found);
  }

  lemma RecallMeans(wanted: set<string>, found: seq<string>)
    ensures wanted == {} ==> Recall(wanted, found) == 1.0
    ensures wanted != {} ==>
              Recall(wanted, found) * |wanted| as real == |set x | x in found && x in wanted| as real
    ensures wanted * Elems(found) != {} <==> exists x :: x in found && x in wanted
  {
    var both := set x | x in found && x in wanted;
    assert wanted * Elems(found) == both;
    hide Elems;
    QuotientTimes(|both|, |wanted|);
    if x :| x in found && x in wanted {
      assert x in both;
    }
    if both != {} {
      var x :| x in both;
    }
  }

  lemma WantedIsExpected(expectedIds: seq<string>)
    ensures var expected := Dedupe(Mapped(Strip, expectedIds));
            Elems(expected) == Wanted(expectedIds) && |expected| == |Wanted(expectedIds)|
  {
    hide Strip;
    var expected := Dedupe(Mapped(Strip, expectedIds));
    forall x ensures x in Elems(expected) <==> x in Wanted(expectedIds) {
      if x in expected {
        var i :| 0 <= i < |expectedIds| && Strip(expectedIds[i]) == x;
        assert expectedIds[i] in expectedIds;
      }
      if x in Wanted(expectedIds) {
        var y :| y in expectedIds && Strip(y) != "" && Strip(y) == x;
        var i :| 0 <= i < |expectedIds| && expectedIds[i] == y;
        assert Mapped(Strip, expectedIds)[i] == x;
      }
    }
    assert Elems(expected) == Wanted(expectedIds);
    ElemsSize(expected);
  }

  lemma QuotientTimes(n: nat, m: nat)
    ensures m != 0 ==> n as real / m as real * m as real == n as real
  {
  }

  lemma RetrievedFrom(chunkIds: seq<string>, k: int)
    ensures forall x | x in Retrieved(chunkIds, k) :: x != "" && exists c :: c in chunkIds && x == Strip(c)
    ensures k >= 0 ==> |Retrieved(chunkIds, k)| <= k
  {
    hide Strip;
    var kept := Filter(NonEmpty, chunkIds);
    SliceIsPrefix(Dedupe(Mapped(Strip, kept)), k);
    forall x | x in Retrieved(chunkIds, k) ensures x != "" && exists c :: c in chunkIds && x == Strip(c) {
      assert x in Mapped(Strip, kept);
      var i :| 0 <= i < |kept| && Strip(kept[i]) == x;
      assert kept[i] in kept;
    }
  }

  // ----- recall and MRR never fall when a ranking grows

  lemma RatioGrows(m: nat, n: nat, k: nat)
    requires m <= n && k > 0
    ensures m as real / k as real <= n as real / k as real
  {
  }

  lemma RecallGrows(expected: set<string>, r: seq<string>, s: seq<string>)
    requires r <= s
    ensures Recall(expected, r) <= Recall(expected, s)
  {
    if expected != {} {
      forall x | x in expected * Elems(r) ensures x in expected * Elems(s) {
        assert x in s;
      }
      SubsetSize(expected * Elems(r), expected * Elems(s));
      RatioGrows(|expected * Elems(r)|, |expected * Elems(s)|, |expected|);
    }
  }

  /** Recall lies in [0, 1] and is 1 exactly when everything expected was retrieved. */
  lemma RecallBounds(expected: set<string>, r: seq<string>)
    ensures 0.0 <= Recall(expected, r) <= 1.0
    ensures Recall(expected, r) == 1.0 <==> expected <= Elems(r)
  {
    var hits := expected * Elems(r);
    SubsetSize(hits, expected);
    assert expected <= Elems(r) <==> hits == expected;
    hide Elems;
    if expected != {} {
      UnitQuotient(|hits| as real, |expected| as real);
    }
  }

  lemma MrrGrows(expected: set<string>, r: seq<string>, s: seq<string>)
    requires r <= s
    ensures Mrr(expected, r) <= Mrr(expected, s)
  {
    var i, j := FirstHit(expected, r), FirstHit(expected, s);
    if i < |r| {
      assert forall k | 0 <= k < |r| :: s[k] == r[k];
    }
  }

  /** What reaches a metric does not get worse by appending to the ranking, except NDCG. */
  lemma LongerRankingKeepsRecallAndMrr(d: nat -> real, expectedIds: seq<string>, a: seq<string>, b: seq<string>, k: int)
    requires a <= b
    ensures Evaluation(d, expectedIds, a, k).recall <= Evaluation(d, expectedIds, b, k).recall
    ensures Evaluation(d, expectedIds, a, k).mrr <= Evaluation(d, expectedIds, b, k).mrr
    ensures Evaluation(d, expectedIds, a, k).sourceHit ==> Evaluation(d, expectedIds, b, k).sourceHit
  {
    RetrievedGrows(a, b, k);
    var e, r, s := Elems(Dedupe(Mapped(Strip, expectedIds))), Retrieved(a, k), Retrieved(b, k);
    RecallGrows(e, r, s);
    MrrGrows(e, r, s);
    forall x | x in e * Elems(r) ensures x in e * Elems(s) {
      assert x in s;
    }
  }

  // ----- NDCG

  function Hits(expected: set<string>, s: seq<string>): (n: nat)
    ensures n <= |s|
  {
    if s == [] then 0 else Hits(expected, s[..|s| - 1]) + if s[|s| - 1] in expected then 1 else 0
  }

  ghost predicate TopHits(expected: set<string>, s: seq<string>, n: nat) {
    n <= |s| && forall i | 0 <= i < n :: s[i] in expected
  }

  lemma {:induction false} IdealGrows(d: nat -> real, m: nat, n: nat)
    requires Discount(d) && m <= n
    ensures 0.0 <= Ideal(d, m) <= Ideal(d, n) && (m < n ==> Ideal(d, m) < Ideal(d, n))
    decreases n
  {
    if m < n {
      IdealGrows(d, m, n - 1);
    } else if n > 0 {
      IdealGrows(d, n - 1, n - 1);
    }
  }

  /** Moving all hits to the top gains unless they are there already. */
  lemma {:induction false} HitsFirstIsBest(d: nat -> real, expected: set<string>, s: seq<string>)
    requires Discount(d)
    ensures 0.0 <= Dcg(d, expected, s) <= Ideal(d, Hits(expected, s))
    ensures Dcg(d, expected, s) == Ideal(d, Hits(expected, s)) <==> TopHits(expected, s, Hits(expected, s))
    ensures Dcg(d, expected, s) > 0.0 <==> Hits(expected, s) > 0
    decreases |s|
  {
    if s != [] {
      var n := |s| - 1;
      var front := s[..n];
      var h := Hits(expected, front);
      HitsFirstIsBest(d, expected, front);
      if s[n] in expected {
        assert d(h + 1) >= d(n + 1) > 0.0 && (h < n ==> d(h + 1) > d(n + 1));
        if h == n {
          assert TopHits(expected, s, n + 1) <==> TopHits(expected, front, n);
        } else {
          NotOnTop(expected, s);
        }
      } else {
        assert TopHits(expected, s, h) <==> TopHits(expected, front, h);
      }
    }
  }

  lemma NotOnTop(expected: set<string>, s: seq<string>)
    requires s != [] && s[|s| - 1] in expected && Hits(expected, s[..|s| - 1]) < |s| - 1
    ensures !TopHits(expected, s, Hits(expected, s))
  {
    var front := s[..|s| - 1];
    var h := Hits(expected, front);
    if TopHits(expected, s, h + 1) {
      assert TopHits(expected, front, h + 1);
      AllTopCounted(expected, front, h + 1);
    }
  }

  lemma {:induction false} AllTopCounted(expected: set<string>, s: seq<string>, n: nat)
    requires TopHits(expected, s, n)
    ensures Hits(expected, s) >= n
    decreases |s|
  {
    if s != [] {
      AllTopCounted(expected, s[..|s| - 1], if n == |s| then n - 1 else n);
    }
  }

  /** A list without repetitions has at most as many hits as identifiers are expected. */
  lemma {:induction false} DistinctHits(expected: set<string>, s: seq<string>)
    requires Distinct(s)
    ensures Hits(expected, s) == |expected * Elems(s)| <= |expected|
    decreases |s|
  {
    SubsetSize(expected * Elems(s), expected);
    if s == [] {
      assert expected * Elems(s) == {};
    } else {
      var front, x := s[..|s| - 1], s[|s| - 1];
      DistinctHits(expected, front);
      LastElem(s);
      hide Elems;
      if x in expected {
        assert expected * Elems(s) == expected * Elems(front) + {x};
      } else {
        assert expected * Elems(s) == expected * Elems(front);
      }
    }
  }

  /** For a list without repetitions NDCG lies in [0, 1], and it is 1 exactly when as many leading positions as could be
      hits are hits. */
  lemma NdcgBounds(d: nat -> real, expected: set<string>, s: seq<string>)
    requires Discount(d) && Distinct(s)
    ensures 0.0 <= Ndcg(d, expected, s) <= 1.0
    ensures expected != {} && s != [] ==>
              (Ndcg(d, expected, s) == 1.0 <==> TopHits(expected, s, Smaller(|expected|, |s|)))
    ensures expected != {} ==> (Ndcg(d, expected, s) > 0.0 <==> Hits(expected, s) > 0)
  {
    var h, m := Hits(expected, s), Smaller(|expected|, |s|);
    DistinctHits(expected, s);
    HitsFirstIsBest(d, expected, s);
    IdealGrows(d, h, m);
    IdealGrows(d, 0, m);
    if TopHits(expected, s, m) {
      AllTopCounted(expected, s, m);
    }
    if m > 0 {
      UnitQuotient(Dcg(d, expected, s), Ideal(d, m));
    }
  }

  lemma UnitQuotient(n: real, m: real)
    requires 0.0 <= n <= m && m > 0.0
    ensures 0.0 <= n / m <= 1.0 && (n / m == 1.0 <==> n == m) && (n / m > 0.0 <==> n > 0.0)
  {
    assert n / m * m == n;
  }

  /** With something expected, all metrics agree on whether there is any hit. */
  lemma MetricsAgreeOnHit(d: nat -> real, expected: seq<string>, retrieved: seq<string>)
    requires Discount(d) && Distinct(retrieved) && expected != []
    ensures var m := MetricsOf(d, expected, retrieved);
            && (m.sourceHit <==> m.recall > 0.0) && (m.sourceHit <==> m.mrr > 0.0) && (m.sourceHit <==> m.ndcg > 0.0)
  {
    var e := Elems(expected);
    assert expected[0] in e;
    DistinctHits(e, retrieved);
    NdcgBounds(d, e, retrieved);
    var h := e * Elems(retrieved);
    UnitQuotient(|h| as real, |e| as real);
    var i := FirstHit(e, retrieved);
    if i < |retrieved| {
      assert retrieved[i] in h;
    } else {
      assert forall x | x in retrieved :: x !in e;
      assert h == {};
    }
  }

  lemma OneMoreDcg(d: nat -> real, expected: set<string>, s: seq<string>, x: string)
    ensures Dcg(d, expected, s + [x]) == Dcg(d, expected, s) + Gain(d, expected, x, |s| + 1)
  {
    assert (s + [x])[..|s|] == s;
  }

  lemma OneMoreWhenFull(d: nat -> real, expected: set<string>, s: seq<string>, x: string)
    requires Discount(d) && 0 < |expected| <= |s|
    ensures Ndcg(d, expected, s + [x]) >= Ndcg(d, expected, s)
  {
    OneMoreDcg(d, expected, s, x);
    IdealGrows(d, 0, |expected|);
    hide Dcg, Ideal, Ratio;
    Larger(Dcg(d, expected, s), Dcg(d, expected, s + [x]), Ideal(d, |expected|));
  }

  lemma NotNegative(d: nat -> real, expected: set<string>, s: seq<string>)
    requires Discount(d)
    ensures Ndcg(d, expected, s) >= 0.0
  {
    HitsFirstIsBest(d, expected, s);
    IdealGrows(d, 0, Smaller(|expected|, |s|));
    hide Dcg, Ideal, Hits;
    if expected != {} && Ideal(d, Smaller(|expected|, |s|)) > 0.0 {
      Larger(0.0, Dcg(d, expected, s), Ideal(d, Smaller(|expected|, |s|)));
    }
  }

  // ----- what a longer ranking does to NDCG

  /** The gain of the positions after the `n`-th. */
  function GainFrom(d: nat -> real, expected: set<string>, s: seq<string>, n: nat): real
    decreases |s|
  {
    if |s| <= n then 0.0
    else GainFrom(d, expected, s[..|s| - 1], n) + Gain(d, expected, s[|s| - 1], |s|)
  }

  lemma {:induction false} DcgSplits(d: nat -> real, expected: set<string>, r: seq<string>, s: seq<string>)
    requires r <= s
    ensures Dcg(d, expected, s) == Dcg(d, expected, r) + GainFrom(d, expected, s, |r|)
    decreases |s|
  {
    if |r| == |s| {
      assert r == s;
    } else {
      assert r <= s[..|s| - 1];
      DcgSplits(d, expected, r, s[..|s| - 1]);
    }
  }

  /** What the added positions could have gained at best, as far as there was something left to expect. */
  function IdealFrom(d: nat -> real, expected: set<string>, s: seq<string>, n: nat): real {
    Ideal(d, Smaller(|expected|, |s|)) - Ideal(d, n)
  }

  /** A longer ranking has the lower NDCG if and only if the shorter one retrieved less than was expected and the
      added identifiers gain a smaller share of what they could than the shorter ranking did. */
  lemma LongerLowersNdcgIff(d: nat -> real, expected: set<string>, r: seq<string>, s: seq<string>)
    requires Discount(d) && r <= s
    ensures Ndcg(d, expected, s) < Ndcg(d, expected, r)
            <==> && |r| < Smaller(|expected|, |s|)
                 && IdealFrom(d, expected, s, |r|) > 0.0
                 && Ratio(GainFrom(d, expected, s, |r|), IdealFrom(d, expected, s, |r|)) < Ndcg(d, expected, r)
  {
    hide Ndcg, Dcg, Ideal, GainFrom, Ratio;
    if |expected| <= |r| {
      NdcgGrowsWhenFull(d, expected, r, s);
    } else if |r| == |s| {
      assert r == s;
    } else {
      IdealGrows(d, |r|, Smaller(|expected|, |s|));
      if r == [] {
        GainNotNegative(d, expected, s, 0);
        NotNegative(d, expected, s);
        NothingRetrieved(d, expected);
        RatioSign(GainFrom(d, expected, s, 0), IdealFrom(d, expected, s, 0));
      } else {
        LongerWhenShort(d, expected, r, s);
      }
    }
  }

  lemma NothingRetrieved(d: nat -> real, expected: set<string>)
    requires expected != {}
    ensures Ndcg(d, expected, []) == 0.0
  {
  }

  lemma {:induction false} GainNotNegative(d: nat -> real, expected: set<string>, s: seq<string>, n: nat)
    requires Discount(d)
    ensures GainFrom(d, expected, s, n) >= 0.0
    decreases |s|
  {
    if |s| > n {
      GainNotNegative(d, expected, s[..|s| - 1], n);
    }
  }

  lemma RatioSign(n: real, m: real)
    requires n >= 0.0 && m > 0.0
    ensures Ratio(n, m) >= 0.0
  {
  }

  lemma NdcgAt(d: nat -> real, expected: set<string>, s: seq<string>)
    requires Discount(d) && expected != {} && s != []
    ensures var ideal := Ideal(d, Smaller(|expected|, |s|));
            ideal > 0.0 && Ndcg(d, expected, s) == Ratio(Dcg(d, expected, s), ideal)
  {
    hide Dcg, Ideal, Ratio;
    IdealGrows(d, 0, Smaller(|expected|, |s|));
    NoIdeal(d);
  }

  lemma NoIdeal(d: nat -> real)
    ensures Ideal(d, 0) == 0.0
  {
  }

  lemma LongerWhenShort(d: nat -> real, expected: set<string>, r: seq<string>, s: seq<string>)
    requires Discount(d) && r <= s && 0 < |r| < Smaller(|expected|, |s|)
    ensures IdealFrom(d, expected, s, |r|) > 0.0
    ensures Ndcg(d, expected, s) < Ndcg(d, expected, r)
            <==> Ratio(GainFrom(d, expected, s, |r|), IdealFrom(d, expected, s, |r|)) < Ndcg(d, expected, r)
  {
    hide Ndcg, Dcg, Ideal, GainFrom, Ratio;
    NdcgAt(d, expected, r);
    NdcgAt(d, expected, s);
    IdealGrows(d, |r|, Smaller(|expected|, |s|));
    DcgSplits(d, expected, r, s);
    Mediants(Dcg(d, expected, r), Ideal(d, |r|), GainFrom(d, expected, s, |r|), IdealFrom(d, expected, s, |r|));
  }

  /** The mediant of two fractions is below the first exactly if the second is. */
  lemma Mediants(a: real, b: real, g: real, c: real)
    requires b > 0.0 && c > 0.0
    ensures Ratio(a + g, b + c) < Ratio(a, b) <==> Ratio(g, c) < Ratio(a, b)
  {
    RatioTimes(a, b);
    RatioTimes(g, c);
    RatioTimes(a + g, b + c);
    hide Ratio;
    MediantCross(Ratio(a, b), Ratio(g, c), Ratio(a + g, b + c), a, b, g, c);
  }

  lemma MediantCross(p: real, q: real, r: real, a: real, b: real, g: real, c: real)
    requires b > 0.0 && c > 0.0 && p * b == a && q * c == g && r * (b + c) == a + g
    ensures r < p <==> q < p
  {
    assert (p - r) * (b + c) == (p - q) * c;
  }

  lemma {:induction false} NoGain(d: nat -> real, expected: set<string>, s: seq<string>, n: nat)
    requires forall i | n <= i < |s| :: s[i] !in expected
    ensures GainFrom(d, expected, s, n) == 0.0
    decreases |s|
  {
    if |s| > n {
      NoGain(d, expected, s[..|s| - 1], n);
    }
  }

  lemma {:induction false} FullGain(d: nat -> real, expected: set<string>, s: seq<string>, n: nat)
    requires n <= |s| && forall i | n <= i < |s| :: s[i] in expected
    ensures GainFrom(d, expected, s, n) == Ideal(d, |s|) - Ideal(d, n)
    decreases |s|
  {
    if |s| > n {
      FullGain(d, expected, s[..|s| - 1], n);
    }
  }

  /** When all that is added misses, NDCG falls if and only if something is added, fewer were retrieved than expected,
      and there was a hit to lose. */
  lemma MissesLowerNdcgIff(d: nat -> real, expected: set<string>, r: seq<string>, s: seq<string>)
    requires Discount(d) && r <= s && Distinct(r) && forall i | |r| <= i < |s| :: s[i] !in expected
    ensures Ndcg(d, expected, s) < Ndcg(d, expected, r)
            <==> |r| < |s| && |r| < |expected| && Hits(expected, r) > 0
  {
    hide Ndcg, Ideal, Dcg, Hits;
    LongerLowersNdcgIff(d, expected, r, s);
    NoGain(d, expected, s, |r|);
    hide GainFrom;
    if |r| < Smaller(|expected|, |s|) {
      IdealGrows(d, |r|, Smaller(|expected|, |s|));
      NdcgBounds(d, expected, r);
      assert Ratio(0.0, IdealFrom(d, expected, s, |r|)) == 0.0;
    }
  }

  /** When all that is added hits, NDCG never falls. */
  lemma HitsNeverLowerNdcg(d: nat -> real, expected: set<string>, r: seq<string>, s: seq<string>)
    requires Discount(d) && r <= s && Distinct(r) && forall i | |r| <= i < |s| :: s[i] in expected
    ensures Ndcg(d, expected, r) <= Ndcg(d, expected, s)
  {
    hide Ndcg, Ideal, Dcg;
    LongerLowersNdcgIff(d, expected, r, s);
    if |r| < Smaller(|expected|, |s|) {
      FullGain(d, expected, s, |r|);
      hide GainFrom;
      IdealGrows(d, |r|, Smaller(|expected|, |s|));
      IdealGrows(d, Smaller(|expected|, |s|), |s|);
      NdcgBounds(d, expected, r);
      AtLeastWhole(GainFrom(d, expected, s, |r|), IdealFrom(d, expected, s, |r|));
    }
  }

  /** Appending one identifier lowers NDCG exactly when it is a miss, fewer were retrieved than expected, and there was
      a hit to lose. */
  lemma OneMoreLowersNdcgIff(d: nat -> real, expected: set<string>, s: seq<string>, x: string)
    requires Discount(d) && Distinct(s)
    ensures Ndcg(d, expected, s + [x]) < Ndcg(d, expected, s)
            <==> x !in expected && |s| < |expected| && Hits(expected, s) > 0
  {
    if x in expected {
      HitsNeverLowerNdcg(d, expected, s, s + [x]);
    } else {
      MissesLowerNdcgIff(d, expected, s, s + [x]);
    }
  }

  lemma AtLeastWhole(n: real, m: real)
    requires n >= m > 0.0
    ensures Ratio(n, m) >= 1.0
  {
    RatioTimes(n, m);
  }

  /** Once as many identifiers are retrieved as are expected, NDCG never falls. */
  lemma {:induction false} NdcgGrowsWhenFull(d: nat -> real, expected: set<string>, r: seq<string>, s: seq<string>)
    requires Discount(d) && r <= s && |expected| <= |r|
    ensures Ndcg(d, expected, r) <= Ndcg(d, expected, s)
    decreases |s|
  {
    if |r| == |s| {
      assert r == s;
    } else if expected != {} {
      var front := s[..|s| - 1];
      assert s == front + [s[|s| - 1]];
      NdcgGrowsWhenFull(d, expected, r, front);
      OneMoreWhenFull(d, expected, front, s[|s| - 1]);
    }
  }

  /** Without deduplication NDCG can exceed 1. */
  lemma RepeatedHitExceedsOne(d: nat -> real, x: string)
    requires Discount(d)
    ensures Ndcg(d, {x}, [x, x]) > 1.0
  {
    assert [x, x][..1] == [x] && [x][..0] == [];
    OneMoreDcg(d, {x}, [], x);
    OneMoreDcg(d, {x}, [x], x);
    assert [x] + [x] == [x, x] && [] + [x] == [x];
    assert Ideal(d, 1) == Ideal(d, 0) + d(1);
    assert Smaller(|{x}|, |[x, x]|) == 1;
    hide Dcg, Ideal, Gain;
    Above(d(1) + d(2), d(1));
  }

  lemma Above(a: real, m: real)
    requires a > m > 0.0
    ensures a / m > 1.0
  {
    assert a / m * m == a;
  }

  lemma MrrBounds(expected: set<string>, r: seq<string>)
    ensures 0.0 <= Mrr(expected, r) <= 1.0
  {
    RatioGrows(1, FirstHit(expected, r) + 1, FirstHit(expected, r) + 1);
  }

  /** All three metrics of any evaluation lie in [0, 1]. */
  lemma EvaluationInUnitInterval(d: nat -> real, expectedIds: seq<string>, chunkIds: seq<string>, k: int)
    requires Discount(d)
    ensures var m := Evaluation(d, expectedIds, chunkIds, k);
            0.0 <= m.recall <= 1.0 && 0.0 <= m.mrr <= 1.0 && 0.0 <= m.ndcg <= 1.0
  {
    hide Recall, Mrr, Ndcg, Dedupe, Retrieved, Elems, Mapped;
    var e, r := Elems(Dedupe(Mapped(Strip, expectedIds))), Retrieved(chunkIds, k);
    RetrievedTidy(chunkIds, k);
    RecallBounds(e, r);
    NdcgBounds(d, e, r);
    MrrBounds(e, r);
  }

  lemma Larger(a: real, b: real, m: real)
    requires a <= b && m > 0.0
    ensures Ratio(a, m) <= Ratio(b, m)
  {
  }

  lemma RatioTimes(n: real, m: real)
    requires m != 0.0
    ensures Ratio(n, m) * m == n
  {
  }

  // ----- identifiers that evaluation takes as they are

  /** Distinct, and neither empty nor padded with spaces. */
  ghost predicate Tidy(ids: seq<string>) {
    Distinct(ids) && forall i | 0 <= i < |ids| :: ids[i] != "" && Strip(ids[i]) == ids[i]
  }

  lemma TidyPrefix(ids: seq<string>, x: string)
    requires Tidy(ids + [x])
    ensures Tidy(ids)
  {
    hide Strip;
    assert forall i | 0 <= i < |ids| :: (ids + [x])[i] == ids[i];
  }

  lemma {:induction false} TidyUnchanged(ids: seq<string>)
    requires forall i | 0 <= i < |ids| :: ids[i] != "" && Strip(ids[i]) == ids[i]
    ensures Filter(NonEmpty, ids) == ids && Mapped(Strip, ids) == ids
  {
    hide Strip;
    if ids != [] {
      TidyUnchanged(ids[1..]);
    }
  }

  lemma TidyRetrieved(ids: seq<string>, k: int)
    requires Tidy(ids) && k >= |ids|
    ensures Dedupe(ids) == ids && Retrieved(ids, k) == ids && Dedupe(Mapped(Strip, ids)) == ids
  {
    TidyUnchanged(ids);
    DedupeTidy(ids);
  }

  lemma SomeHit(expected: set<string>, s: seq<string>)
    requires Distinct(s)
    ensures Hits(expected, s) > 0 <==> exists y :: y in s && y in expected
  {
    DistinctHits(expected, s);
    assert (forall y :: y !in expected * Elems(s)) <==> expected * Elems(s) == {};
  }
}
