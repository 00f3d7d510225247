/** Document folders as parent pointers: the tree every knowledge base keeps, the recursive descendant query,
    and the operations that change it (app/mneme/crud/document_folder.py, app/mneme/domains/documents/folders.py). */
module FolderTree {
  datatype Folder = Folder(pk: int, id: string, user: int, kb: int, parent: int,
                           name: string, normalized: string, isRoot: bool)

  type Table = map<int, Folder>

  // ----- what it means to be a tree

  /** `x` is the root, reached from itself in `n` parent steps through folders that are not roots. */
  ghost predicate RootIn(t: Table, x: int, n: nat)
    decreases n
  {
    x in t && if n == 0 then t[x].isRoot else !t[x].isRoot && RootIn(t, t[x].parent, n - 1)
  }

  ghost predicate ReachesRoot(t: Table, x: int) {
    exists n: nat :: RootIn(t, x, n)
  }

  /** `x` lies `n` parent steps below `a`. */
  ghost predicate Below(t: Table, x: int, a: int, n: nat)
    decreases n
  {
    if n == 0 then x == a else x in t && !t[x].isRoot && Below(t, t[x].parent, a, n - 1)
  }

  /** The row agrees with its key; only roots are their own parents; the parent exists and shares owner and
      knowledge base. */
  ghost predicate LinkedAt(t: Table, x: int)
    requires x in t
  {
    && t[x].pk == x
    && (t[x].isRoot <==> t[x].parent == x)
    && t[x].parent in t && t[t[x].parent].kb == t[x].kb && t[t[x].parent].user == t[x].user
  }

  ghost predicate Linked(t: Table) {
    forall x {:trigger LinkedAt(t, x)} | x in t :: LinkedAt(t, x)
  }

  ghost predicate Acyclic(t: Table) {
    forall x {:trigger ReachesRoot(t, x)} | x in t :: ReachesRoot(t, x)
  }

  /** The unique indexes: one root per knowledge base, one public identifier, one name per parent. */
  ghost predicate Unique(t: Table) {
    && (forall x, y | x in t && y in t && t[x].isRoot && t[y].isRoot && t[x].kb == t[y].kb :: x == y)
    && (forall x, y | x in t && y in t && t[x].id == t[y].id :: x == y)
    && (forall x, y | x in t && y in t && SameName(t[x], t[y]) :: x == y)
  }

  predicate SameName(f: Folder, g: Folder) {
    f.kb == g.kb && f.parent == g.parent && f.normalized == g.normalized
  }

  ghost predicate Tree(t: Table) {
    Linked(t) && Acyclic(t) && Unique(t)
  }

  lemma {:induction false} RootUnique(t: Table, x: int, m: nat, n: nat)
    requires RootIn(t, x, m) && RootIn(t, x, n)
    ensures m == n
    decreases m
  {
    if m > 0 && n > 0 {
      RootUnique(t, t[x].parent, m - 1, n - 1);
    }
  }

  /** What lies below `a` is in its knowledge base and has its owner. */
  lemma {:induction false} BelowSameScope(t: Table, x: int, a: int, n: nat)
    requires Linked(t) && x in t && Below(t, x, a, n)
    ensures a in t && t[a].kb == t[x].kb && t[a].user == t[x].user
    decreases n
  {
    assert LinkedAt(t, x);
    if n > 0 {
      BelowSameScope(t, t[x].parent, a, n - 1);
    }
  }

  /** The way to the root continues from every folder above. */
  lemma {:induction false} RootAbove(t: Table, x: int, a: int, n: nat, k: nat)
    requires RootIn(t, x, n) && Below(t, x, a, k)
    ensures k <= n && RootIn(t, a, n - k)
    decreases k
  {
    if k > 0 {
      RootAbove(t, t[x].parent, a, n - 1, k - 1);
    }
  }

  /** Nothing in a tree lies properly below itself. */
  lemma NotBelowItself(t: Table, x: int, k: nat)
    requires Acyclic(t) && x in t && Below(t, x, x, k)
    ensures k == 0
  {
    assert ReachesRoot(t, x);
    var n: nat :| RootIn(t, x, n);
    RootAbove(t, x, x, n, k);
    RootUnique(t, x, n, n - k);
  }

  /** Every folder reaches the one root of its knowledge base. */
  lemma {:induction false} RootOfKnowledgeBase(t: Table, x: int, n: nat) returns (r: int)
    requires Linked(t) && RootIn(t, x, n)
    ensures r in t && t[r].isRoot && t[r].parent == r && t[r].kb == t[x].kb && t[r].user == t[x].user
            && Below(t, x, r, n)
    decreases n
  {
    assert LinkedAt(t, x);
    if n == 0 {
      r := x;
    } else {
      r := RootOfKnowledgeBase(t, t[x].parent, n - 1);
    }
  }

  // ----- the recursive descendant query

  /** A row of the recursive query started at `a`: found `n` levels down, every level within the scope of `a`. */
  ghost predicate Found(t: Table, x: int, a: int, n: nat)
    requires a in t
    decreases n
  {
    && x in t && t[x].user == t[a].user && t[x].kb == t[a].kb
    && if n == 0 then x != a && t[x].parent == a else Found(t, t[x].parent, a, n - 1)
  }

  ghost predicate IsFound(t: Table, x: int, a: int)
    requires a in t
  {
    exists n: nat :: Found(t, x, a, n)
  }

  ghost function Descendants(t: Table, a: int): set<int>
    requires a in t
  {
    set x | x in t && IsFound(t, x, a)
  }

  lemma {:induction false} FoundIsBelow(t: Table, x: int, a: int, n: nat)
    requires Linked(t) && a in t && Found(t, x, a, n)
    ensures exists k: nat :: k >= 1 && Below(t, x, a, k)
    decreases n
  {
    assert LinkedAt(t, x);
    if n == 0 {
      assert Below(t, t[x].parent, a, 0);
      assert Below(t, x, a, 1);
    } else if t[x].isRoot {
      FoundIsBelow(t, x, a, n - 1);
    } else {
      FoundIsBelow(t, t[x].parent, a, n - 1);
      var k: nat :| k >= 1 && Below(t, t[x].parent, a, k);
      assert Below(t, x, a, k + 1);
    }
  }

  lemma {:induction false} BelowIsFound(t: Table, x: int, a: int, k: nat)
    requires Linked(t) && a in t && x in t && k >= 1 && Below(t, x, a, k)
    ensures IsFound(t, x, a)
    decreases k
  {
    assert LinkedAt(t, x);
    BelowSameScope(t, x, a, k);
    var p := t[x].parent;
    if p == a {
      assert Found(t, x, a, 0);
    } else {
      BelowIsFound(t, p, a, k - 1);
      var n: nat :| Found(t, p, a, n);
      assert Found(t, x, a, n + 1);
    }
  }

  /** The recursive query returns exactly the proper descendants. */
  lemma DescendantsAreBelow(t: Table, a: int, x: int)
    requires Linked(t) && a in t
    ensures x in Descendants(t, a) <==> x in t && exists k: nat :: k >= 1 && Below(t, x, a, k)
  {
    if x in Descendants(t, a) {
      var n: nat :| Found(t, x, a, n);
      FoundIsBelow(t, x, a, n);
    }
    if x in t && exists k: nat :: k >= 1 && Below(t, x, a, k) {
      var k: nat :| k >= 1 && Below(t, x, a, k);
      BelowIsFound(t, x, a, k);
    }
  }

  // ----- when the query ends, and how often it yields a row

  /** The rows that the query adds in its `n`-th round. A row joins one parent, so no round holds a row twice. */
  ghost function Round(t: Table, a: int, n: nat): set<int>
    requires a in t
  {
    set x | x in t && Found(t, x, a, n)
  }

  ghost predicate OnCycle(t: Table, a: int) {
    exists k: nat :: k >= 1 && Below(t, a, a, k)
  }

  /** In round `n` the query finds the folders `n + 1` steps below. */
  lemma {:induction false} FoundDepth(t: Table, x: int, a: int, n: nat)
    requires Linked(t) && a in t && Found(t, x, a, n)
    ensures !t[x].isRoot && Below(t, x, a, n + 1)
    decreases n
  {
    assert LinkedAt(t, x);
    if n == 0 {
      assert Below(t, t[x].parent, a, 0);
    } else {
      FoundDepth(t, t[x].parent, a, n - 1);
    }
  }

  lemma {:induction false} BelowTwice(t: Table, x: int, a: int, m: nat, n: nat)
    requires Below(t, x, a, m) && Below(t, x, a, m + n)
    ensures Below(t, a, a, n)
    decreases m
  {
    if m > 0 {
      BelowTwice(t, t[x].parent, a, m - 1, n);
    }
  }

  /** Unless the folder lies on a cycle, no row is found in two rounds: the query yields each descendant once. */
  lemma FoundOnce(t: Table, x: int, a: int, m: nat, n: nat)
    requires Linked(t) && a in t && !OnCycle(t, a) && Found(t, x, a, m) && Found(t, x, a, n)
    ensures m == n
  {
    FoundDepth(t, x, a, m);
    FoundDepth(t, x, a, n);
    hide Below;
    DepthUnique(t, x, a, if m <= n then m + 1 else n + 1, if m <= n then n + 1 else m + 1);
  }

  lemma DepthUnique(t: Table, x: int, a: int, m: nat, n: nat)
    requires !OnCycle(t, a) && m <= n && Below(t, x, a, m) && Below(t, x, a, n)
    ensures m == n
  {
    BelowTwice(t, x, a, m, n - m);
  }

  /** A row in one round has rows above it in every earlier round. */
  lemma {:induction false} EarlierRounds(t: Table, x: int, a: int, n: nat, m: nat)
    requires a in t && Found(t, x, a, n) && m <= n
    ensures Round(t, a, m) != {}
    decreases n
  {
    if m < n {
      EarlierRounds(t, t[x].parent, a, n - 1, m);
    } else {
      assert x in Round(t, a, m);
    }
  }

  /** What lies below a found row is found later. */
  lemma {:induction false} FoundBelow(t: Table, x: int, y: int, a: int, n: nat, k: nat)
    requires Linked(t) && a in t && x in t && Found(t, y, a, n) && Below(t, x, y, k)
    ensures Found(t, x, a, n + k)
    decreases k
  {
    assert LinkedAt(t, x);
    if k > 0 {
      FoundBelow(t, t[x].parent, y, a, n, k - 1);
    }
  }

  /** A folder on a cycle of length `k` is a row of its own query, `k - 1` rounds on. */
  lemma {:induction false} FindsUpward(t: Table, x: int, a: int, k: nat)
    requires Linked(t) && a in t && x in t && k >= 1 && Below(t, x, a, k)
    requires forall j: nat | 1 <= j < k :: !Below(t, x, a, j)
    requires x == a ==> k >= 2
    ensures Found(t, x, a, k - 1)
    decreases k
  {
    assert LinkedAt(t, x);
    BelowSameScope(t, x, a, k);
    var p := t[x].parent;
    if k == 1 {
      assert p == a;
    } else {
      assert p != a by {
        assert Below(t, p, a, 0) <==> p == a;
        assert !Below(t, x, a, 1);
      }
      forall j: nat | 1 <= j < k - 1 ensures !Below(t, p, a, j) {
        assert !Below(t, x, a, j + 1);
      }
      FindsUpward(t, p, a, k - 1);
    }
  }

  lemma {:induction false} ShortestCycle(t: Table, a: int, k: nat) returns (m: nat)
    requires k >= 1 && Below(t, a, a, k)
    ensures 1 <= m <= k && Below(t, a, a, m) && forall j: nat | 1 <= j < m :: !Below(t, a, a, j)
    decreases k
  {
    if j: nat :| 1 <= j < k && Below(t, a, a, j) {
      m := ShortestCycle(t, a, j);
    } else {
      m := k;
    }
  }

  lemma {:induction false} FoundForever(t: Table, a: int, m: nat, k: nat, n: nat) returns (r: nat)
    requires Linked(t) && a in t && k >= 1 && Below(t, a, a, k) && Found(t, a, a, m)
    ensures r >= n && Found(t, a, a, r)
    decreases if m >= n then 0 else n - m
  {
    if m >= n {
      r := m;
    } else {
      FoundBelow(t, a, a, a, m, k);
      r := FoundForever(t, a, m + k, k, n);
    }
  }

  lemma CycleHasTwo(t: Table, a: int, k: nat)
    requires Linked(t) && a in t && k >= 1 && Below(t, a, a, k)
    ensures k >= 2
  {
    assert LinkedAt(t, a);
    assert Below(t, t[a].parent, a, 0) <==> t[a].parent == a;
  }

  /** On a cycle every round adds rows. */
  lemma CycleNeverEnds(t: Table, a: int, n: nat)
    requires Linked(t) && a in t && OnCycle(t, a)
    ensures Round(t, a, n) != {}
  {
    var k: nat :| k >= 1 && Below(t, a, a, k);
    var m := ShortestCycle(t, a, k);
    CycleHasTwo(t, a, m);
    FindsUpward(t, a, a, m);
    var r := FoundForever(t, a, m - 1, m, n);
    EarlierRounds(t, a, a, r, n);
  }

  /** The rows of the first `n` rounds. */
  ghost function FirstRounds(t: Table, a: int, n: nat): set<int>
    requires a in t
  {
    set x | x in t && FoundBefore(t, x, a, n)
  }

  ghost predicate FoundBefore(t: Table, x: int, a: int, n: nat)
    requires a in t
  {
    exists m: nat :: m < n && Found(t, x, a, m)
  }

  /** Off a cycle each round is new. */
  lemma RoundIsNew(t: Table, a: int, n: nat)
    requires Linked(t) && a in t && !OnCycle(t, a)
    ensures Round(t, a, n) !! FirstRounds(t, a, n) && FirstRounds(t, a, n + 1) == FirstRounds(t, a, n) + Round(t, a, n)
  {
    forall x | x in Round(t, a, n) && x in FirstRounds(t, a, n) ensures false {
      var m: nat :| m < n && Found(t, x, a, m);
      FoundOnce(t, x, a, m, n);
    }
    forall x ensures x in FirstRounds(t, a, n + 1) <==> x in FirstRounds(t, a, n) + Round(t, a, n) {
      if x in t && FoundBefore(t, x, a, n + 1) {
        var m: nat :| m < n + 1 && Found(t, x, a, m);
        assert m == n || FoundBefore(t, x, a, n);
      }
      if x in Round(t, a, n) {
        assert FoundBefore(t, x, a, n + 1);
      }
      if x in FirstRounds(t, a, n) {
        var m: nat :| m < n && Found(t, x, a, m);
        assert FoundBefore(t, x, a, n + 1);
      }
    }
  }

  lemma {:induction false} SomeRoundEmpty(t: Table, a: int, n: nat) returns (m: nat)
    requires Linked(t) && a in t && !OnCycle(t, a)
    ensures Round(t, a, m) == {}
    decreases t.Keys - FirstRounds(t, a, n)
  {
    if Round(t, a, n) == {} {
      m := n;
    } else {
      RoundIsNew(t, a, n);
      RoundIsNew(t, a, n + 1);
      assert FirstRounds(t, a, n + 1) <= t.Keys;
      m := SomeRoundEmpty(t, a, n + 1);
    }
  }

  /** The query has a last round exactly if the folder does not lie on a cycle. */
  lemma QueryEndsIff(t: Table, a: int)
    requires Linked(t) && a in t
    ensures (exists n: nat :: Round(t, a, n) == {}) <==> !OnCycle(t, a)
  {
    if OnCycle(t, a) {
      forall n: nat ensures Round(t, a, n) != {} {
        CycleNeverEnds(t, a, n);
      }
    } else {
      var n := SomeRoundEmpty(t, a, 0);
    }
  }

  lemma NoCycleInTree(t: Table, a: int)
    requires Acyclic(t) && a in t
    ensures !OnCycle(t, a)
  {
    if OnCycle(t, a) {
      var k: nat :| k >= 1 && Below(t, a, a, k);
      NotBelowItself(t, a, k);
    }
  }

  function Children(t: Table, a: Folder, level: set<int>): set<int> {
    set x | x in t && t[x].parent in level && t[x].user == a.user && t[x].kb == a.kb
  }

  lemma NextRound(t: Table, a: int, n: nat)
    requires a in t
    ensures Round(t, a, n + 1) == Children(t, t[a], Round(t, a, n))
  {
    forall x | x in Children(t, t[a], Round(t, a, n)) ensures Found(t, x, a, n + 1) {
    }
    forall x | x in Round(t, a, n + 1) ensures x in Children(t, t[a], Round(t, a, n)) {
      assert Found(t, t[x].parent, a, n);
    }
  }

  /** All rounds before an empty one hold all that is ever found. */
  lemma AllRounds(t: Table, a: int, n: nat)
    requires Linked(t) && a in t && Round(t, a, n) == {}
    ensures FirstRounds(t, a, n) == Descendants(t, a)
  {
    forall x ensures x in FirstRounds(t, a, n) <==> x in Descendants(t, a) {
      if x in Descendants(t, a) {
        var m: nat :| Found(t, x, a, m);
        if m >= n {
          EarlierRounds(t, x, a, m, n);
        }
        assert FoundBefore(t, x, a, n);
      }
      if x in FirstRounds(t, a, n) {
        var m: nat :| m < n && Found(t, x, a, m);
        assert IsFound(t, x, a);
      }
    }
  }

  /** The rows of the query, round by round as UNION ALL adds them, without removing any: each descendant once. */
  method DescendantRows(t: Table, a: int) returns (rows: multiset<int>)
    requires Linked(t) && a in t && !OnCycle(t, a)
    ensures rows == multiset(Descendants(t, a))
  {
    hide Linked, OnCycle, Round, FirstRounds, Descendants;
    var level := Children(t, t[a], {a}) - {a};
    ghost var n: nat := 0;
    FirstRound(t, a);
    rows := multiset{};
    while level != {}
      invariant level == Round(t, a, n) && rows == multiset(FirstRounds(t, a, n))
      decreases t.Keys - FirstRounds(t, a, n)
    {
      RoundIsNew(t, a, n);
      RowsWithinTable(t, a, n);
      rows := rows + multiset(level);
      level := Children(t, t[a], level);
      NextRound(t, a, n);
      n := n + 1;
    }
    AllRounds(t, a, n);
  }

  lemma FirstRound(t: Table, a: int)
    requires a in t
    ensures Round(t, a, 0) == Children(t, t[a], {a}) - {a} && FirstRounds(t, a, 0) == {}
  {
  }

  lemma RowsWithinTable(t: Table, a: int, n: nat)
    requires a in t
    ensures FirstRounds(t, a, n) <= t.Keys && Round(t, a, n) <= t.Keys
  {
  }

  /** `descendant_folder_pks`: the rows of the query as a set. */
  method DescendantPks(t: Table, a: int) returns (found: set<int>)
    requires Linked(t) && a in t && !OnCycle(t, a)
    ensures found == Descendants(t, a)
  {
    var rows := DescendantRows(t, a);
    found := set x | x in rows;
  }

  // ----- moving one folder

  ghost predicate MoveAllowed(t: Table, a: int, p: int)
    requires a in t
  {
    p != a && p !in Descendants(t, a)
  }

  lemma {:induction false} AvoidsMoved(t: Table, u: Table, x: int, a: int, n: nat)
    requires a in t && a in u && u == t[a := u[a]]
    requires RootIn(t, x, n) && forall k: nat :: !Below(t, x, a, k)
    ensures RootIn(u, x, n)
    decreases n
  {
    assert !Below(t, x, a, 0);
    if n > 0 {
      forall k: nat ensures !Below(t, t[x].parent, a, k) {
        assert !Below(t, x, a, k + 1);
      }
      AvoidsMoved(t, u, t[x].parent, a, n - 1);
    }
  }

  lemma {:induction false} FollowsMoved(t: Table, u: Table, x: int, a: int, k: nat, m: nat)
    requires a in t && a in u && u == t[a := u[a]]
    requires x in t && Below(t, x, a, k) && RootIn(u, a, m)
    ensures ReachesRoot(u, x)
    decreases k
  {
    if x != a {
      assert t[x].parent in t || t[x].parent == a by {
        if k == 1 {
          assert Below(t, t[x].parent, a, 0);
        }
      }
      FollowsMoved(t, u, t[x].parent, a, k - 1, m);
      var n: nat :| RootIn(u, t[x].parent, n);
      assert RootIn(u, x, n + 1);
    }
  }

  /** The check is exact: a move keeps the folders a tree if and only if it is allowed. */
  lemma MoveKeepsTreeIffAllowed(t: Table, a: int, p: int)
    requires Linked(t) && Acyclic(t) && a in t && p in t && !t[a].isRoot
    ensures Acyclic(t[a := t[a].(parent := p)]) <==> MoveAllowed(t, a, p)
  {
    if MoveAllowed(t, a, p) {
      AllowedMoveKeepsTree(t, a, p);
    } else {
      ForbiddenMoveMakesCycle(t, a, p);
    }
  }

  lemma AllowedMoveKeepsTree(t: Table, a: int, p: int)
    requires Linked(t) && Acyclic(t) && a in t && p in t && !t[a].isRoot && MoveAllowed(t, a, p)
    ensures Acyclic(t[a := t[a].(parent := p)])
  {
    assert ReachesRoot(t, p);
    var u := t[a := t[a].(parent := p)];
    DescendantsAreBelow(t, a, p);
    assert !exists k: nat :: k >= 1 && Below(t, p, a, k);
    assert forall k: nat :: Below(t, p, a, k) ==> k == 0;
    assert forall k: nat :: !Below(t, p, a, k);
    var m: nat :| RootIn(t, p, m);
    AvoidsMoved(t, u, p, a, m);
    assert RootIn(u, a, m + 1);
    forall x | x in u ensures ReachesRoot(u, x) {
      if k: nat :| Below(t, x, a, k) {
        FollowsMoved(t, u, x, a, k, m + 1);
      } else {
        assert ReachesRoot(t, x);
        var n: nat :| RootIn(t, x, n);
        AvoidsMoved(t, u, x, a, n);
      }
    }
  }

  lemma {:induction false} BelowSurvives(t: Table, u: Table, x: int, a: int, k: nat)
    requires a in t && a in u && u == t[a := u[a]] && Below(t, x, a, k)
    ensures exists j: nat :: Below(u, x, a, j)
    decreases k
  {
    if x == a {
      assert Below(u, x, a, 0);
    } else {
      BelowSurvives(t, u, t[x].parent, a, k - 1);
      var j: nat :| Below(u, t[x].parent, a, j);
      assert Below(u, x, a, j + 1);
    }
  }

  lemma ForbiddenMoveMakesCycle(t: Table, a: int, p: int)
    requires Linked(t) && a in t && p in t && !t[a].isRoot && !MoveAllowed(t, a, p)
    ensures !ReachesRoot(t[a := t[a].(parent := p)], a)
  {
    var u := t[a := t[a].(parent := p)];
    DescendantsAreBelow(t, a, p);
    var k: nat :| Below(t, p, a, k) by {
      assert p == a ==> Below(t, p, a, 0);
    }
    BelowSurvives(t, u, p, a, k);
    var j: nat :| Below(u, p, a, j);
    assert Below(u, a, a, j + 1);
    if n: nat :| RootIn(u, a, n) {
      RootAbove(u, a, a, n, j + 1);
      RootUnique(u, a, n, n - (j + 1));
    }
  }

  // ----- adding and removing a leaf

  lemma {:induction false} RootInLarger(t: Table, u: Table, x: int, n: nat)
    requires RootIn(t, x, n) && forall y | y in t :: y in u && u[y] == t[y]
    ensures RootIn(u, x, n)
    decreases n
  {
    if n > 0 {
      RootInLarger(t, u, t[x].parent, n - 1);
    }
  }

  lemma AddedLeaf(t: Table, f: Folder)
    requires Linked(t) && Acyclic(t) && f.pk !in t && !f.isRoot
    requires f.parent in t && t[f.parent].kb == f.kb && t[f.parent].user == f.user
    ensures Acyclic(t[f.pk := f])
  {
    var u := t[f.pk := f];
    assert ReachesRoot(t, f.parent);
    var m: nat :| RootIn(t, f.parent, m);
    RootInLarger(t, u, f.parent, m);
    assert RootIn(u, f.pk, m + 1);
    forall x | x in t ensures ReachesRoot(u, x) {
      assert ReachesRoot(t, x);
      var n: nat :| RootIn(t, x, n);
      RootInLarger(t, u, x, n);
    }
  }

  lemma AddedLeafLinked(t: Table, f: Folder)
    requires Linked(t) && f.pk !in t && !f.isRoot
    requires f.parent in t && t[f.parent].kb == f.kb && t[f.parent].user == f.user
    ensures Linked(t[f.pk := f])
  {
    var u := t[f.pk := f];
    forall x | x in u ensures LinkedAt(u, x) {
      assert x in t ==> LinkedAt(t, x);
      assert LinkedAt(t, f.parent);
    }
  }

  lemma {:induction false} RootInWithoutLeaf(t: Table, a: int, x: int, n: nat)
    requires RootIn(t, x, n) && x != a
    requires forall y | y in t && y != a :: t[y].parent != a
    ensures RootIn(t - {a}, x, n)
    decreases n
  {
    if n > 0 {
      RootInWithoutLeaf(t, a, t[x].parent, n - 1);
    }
  }

  ghost predicate Childless(t: Table, a: int) {
    forall y | y in t && y != a :: t[y].parent != a
  }

  lemma RemovedLeafAcyclic(t: Table, a: int)
    requires Acyclic(t) && Childless(t, a)
    ensures Acyclic(t - {a})
  {
    forall x | x in t - {a} ensures ReachesRoot(t - {a}, x) {
      assert ReachesRoot(t, x);
      var n: nat :| RootIn(t, x, n);
      RootInWithoutLeaf(t, a, x, n);
    }
  }

  lemma RemovedLeafLinked(t: Table, a: int)
    requires Linked(t) && a in t
    ensures Linked(t - {a}) <==> Childless(t, a)
  {
    var u := t - {a};
    if !Childless(t, a) {
      var y :| y in t && y != a && t[y].parent == a;
      assert y in u && !LinkedAt(u, y);
    } else {
      forall x | x in u ensures LinkedAt(u, x) {
        assert LinkedAt(t, x);
      }
    }
  }

  /** A folder without subfolders can be removed, and only such a folder: otherwise a child loses its parent. */
  lemma RemovedLeaf(t: Table, a: int)
    requires Tree(t) && a in t
    ensures Tree(t - {a}) <==> Childless(t, a)
  {
    RemovedLeafLinked(t, a);
    if Childless(t, a) {
      RemovedLeafAcyclic(t, a);
    }
  }
}
