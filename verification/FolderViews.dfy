/** Three views of the folder tree and their agreement: the recursive listing (app/mneme/crud/document_folder.py,
    `list_folders`), the nested items built from it (app/mneme/domains/documents/folders.py, `_build_folder_tree`)
    and the path of one folder (app/mneme/domains/documents/upload_service.py, `_folder_path`). */
module FolderViews {
  import opened Sorting
  import opened FolderTree

  // ----- the path of one folder

  /** The names on the way from the root down to `x`, which lies `n` steps below it; the root itself has no name. */
  ghost function PathNames(t: Table, x: int, n: nat): seq<string>
    requires RootIn(t, x, n)
    decreases n
  {
    if n == 0 then [] else PathNames(t, t[x].parent, n - 1) + [t[x].name]
  }

  /** The names met when walking up from `x`, on any table: the walk stops at a missing or foreign folder, at a
      folder that is its own parent, and at a folder seen before. */
  function Walk(t: Table, user: int, x: int, seen: set<int>): seq<string>
    decreases t.Keys - seen
  {
    if x in seen || x !in t || t[x].user != user then []
    else
      assert x in t.Keys - seen;
      (if t[x].isRoot then [] else [t[x].name])
      + if t[x].parent == x then [] else Walk(t, user, t[x].parent, seen + {x})
  }

  /** `_folder_path`. It terminates on every table, also on a cyclic one. */
  method FolderPath(t: Table, folderPk: int, user: int) returns (publicId: string, path: seq<string>)
    ensures path == Reversed(Walk(t, user, folderPk, {}))
    ensures folderPk in t && t[folderPk].user == user && t[folderPk].id != "" ==> publicId == t[folderPk].id
  {
    var names: seq<string> := [];
    var seen: set<int> := {};
    var current := folderPk;
    publicId := "";
    ghost var whole := Walk(t, user, folderPk, {});
    while current !in seen
      invariant whole == names + Walk(t, user, current, seen)
      invariant seen == {} ==> current == folderPk && publicId == ""
      invariant seen != {} && folderPk in t && t[folderPk].user == user && t[folderPk].id != ""
                ==> publicId == t[folderPk].id
      decreases t.Keys - seen
    {
      WalkUnfolds(t, user, current, seen, names);
      seen := seen + {current};
      if current !in t || t[current].user != user {
        break;
      }
      if publicId == "" {
        publicId := t[current].id;
      }
      if !t[current].isRoot {
        names := names + [t[current].name];
      }
      if t[current].parent == current {
        break;
      }
      current := t[current].parent;
    }
    assert whole == names;
    path := Reversed(names);
  }

  lemma WalkUnfolds(t: Table, user: int, x: int, seen: set<int>, names: seq<string>)
    requires x !in seen
    ensures x !in t || t[x].user != user ==> names + Walk(t, user, x, seen) == names
    ensures x in t && t[x].user == user ==>
              x in t.Keys - seen
              && names + Walk(t, user, x, seen)
                 == (if t[x].isRoot then names else names + [t[x].name])
                    + if t[x].parent == x then [] else Walk(t, user, t[x].parent, seen + {x})
  {
  }

  /** In a tree the walk meets exactly the names on the way to the root. */
  lemma {:induction false} WalkIsWayToRoot(t: Table, x: int, n: nat, seen: set<int>)
    requires Tree(t) && RootIn(t, x, n)
    requires forall k: nat, y | k <= n && Below(t, x, y, k) :: y !in seen
    ensures Reversed(Walk(t, t[x].user, x, seen)) == PathNames(t, x, n)
    decreases n
  {
    assert LinkedAt(t, x);
    assert Below(t, x, x, 0);
    if n > 0 {
      var p := t[x].parent;
      forall k: nat, y | k <= n - 1 && Below(t, p, y, k) ensures y !in seen + {x} {
        assert Below(t, x, y, k + 1);
        if y == x {
          NotBelowItself(t, x, k + 1);
        }
      }
      WalkIsWayToRoot(t, p, n - 1, seen + {x});
      ReversedAppend([t[x].name], Walk(t, t[x].user, p, seen + {x}));
      assert Reversed([t[x].name]) == [t[x].name];
    } else {
      assert Walk(t, t[x].user, x, seen) == [];
    }
  }

  // ----- the recursive listing

  predicate PkLess(x: int, y: int) {
    x < y
  }

  /** The folders `n` levels below the root of knowledge base `kb`. */
  ghost function Level(t: Table, kb: int, user: int, n: nat): set<int> {
    set x | x in t && t[x].kb == kb && t[x].user == user && RootIn(t, x, n)
  }

  function Rows(t: Table, pks: seq<int>): (r: seq<Folder>)
    requires forall i | 0 <= i < |pks| :: pks[i] in t
    ensures |r| == |pks| && forall i | 0 <= i < |r| :: r[i] == t[pks[i]]
  {
    if pks == [] then [] else [t[pks[0]]] + Rows(t, pks[1..])
  }

  method Ordered(level: set<int>) returns (pks: seq<int>)
    ensures Increasing(pks, PkLess) && Elems(pks) == level
  {
    var list: seq<int> := [];
    var left := level;
    while left != {}
      invariant left <= level && Distinct(list) && forall x :: x in list <==> x in level && x !in left
      decreases left
    {
      Inhabited(left);
      var x :| x in left;
      left := left - {x};
      list := list + [x];
    }
    pks := Sort(list, PkLess);
    forall x ensures x in Elems(list) <==> x in level {
      assert x !in left;
    }
    assert Elems(list) == level;
    SortEnumerates(list, PkLess);
  }

  /** `depths[i]` levels below the root lies `pks[i]`; shallower folders come first, then smaller keys. */
  ghost predicate ByDepth(t: Table, pks: seq<int>, depths: seq<nat>) {
    && |depths| == |pks|
    && (forall i | 0 <= i < |pks| :: RootIn(t, pks[i], depths[i]))
    && (forall i, j | 0 <= i < j < |pks| :: depths[i] < depths[j] || (depths[i] == depths[j] && pks[i] < pks[j]))
  }

  lemma {:induction false} EmptyLevel(t: Table, kb: int, user: int, d: nat, n: nat, x: int)
    requires Linked(t) && Level(t, kb, user, d) == {} && n >= d
    ensures x !in Level(t, kb, user, n)
    decreases n
  {
    if n > d && x in t {
      EmptyLevel(t, kb, user, d, n - 1, t[x].parent);
      assert LinkedAt(t, x);
    }
  }

  lemma NextLevel(t: Table, kb: int, user: int, d: nat)
    requires Linked(t)
    ensures (set x | x in t && t[x].parent in Level(t, kb, user, d) && t[x].parent != x
                     && t[x].kb == kb && t[x].user == user)
            == Level(t, kb, user, d + 1)
  {
    forall x | x in t
      ensures t[x].parent in Level(t, kb, user, d) && t[x].parent != x && t[x].kb == kb && t[x].user == user
              <==> x in Level(t, kb, user, d + 1)
    {
      assert LinkedAt(t, x);
    }
  }

  /** `list_folders`: in a tree it lists every folder of the knowledge base once, by depth and then by key. */
  method ListFolders(t: Table, kb: int, user: int) returns (pks: seq<int>, ghost depths: seq<nat>)
    requires Tree(t)
    ensures ByDepth(t, pks, depths)
    ensures forall x :: x in pks <==> x in t && t[x].kb == kb && t[x].user == user
  {
    pks, depths := [], [];
    var level := set x | x in t && t[x].kb == kb && t[x].user == user && t[x].isRoot;
    ghost var d: nat := 0;
    assert level == Level(t, kb, user, 0);
    while level != {}
      invariant level == Level(t, kb, user, d)
      invariant ListedTo(t, kb, user, pks, depths, d)
      decreases t.Keys - Elems(pks)
    {
      hide ListedTo, Level, Tree;
      var next := Ordered(level);
      LevelAppended(t, pks, depths, next, d, kb, user);
      pks, depths := pks + next, depths + seq(|next|, _ => d);
      NextLevel(t, kb, user, d);
      level := set x | x in t && t[x].parent in level && t[x].parent != x && t[x].kb == kb && t[x].user == user;
      d := d + 1;
    }
    AllListed(t, kb, user, d, pks, depths);
  }

  /** `pks` lists what lies less than `d` levels below the root. */
  ghost predicate ListedTo(t: Table, kb: int, user: int, pks: seq<int>, depths: seq<nat>, d: nat) {
    && ByDepth(t, pks, depths)
    && (forall i | 0 <= i < |depths| :: depths[i] < d)
    && (forall x :: x in pks <==> Above(t, kb, user, d, x))
  }

  ghost predicate Above(t: Table, kb: int, user: int, d: nat, x: int) {
    exists n: nat :: n < d && x in Level(t, kb, user, n)
  }

  lemma LevelAppended(t: Table, pks: seq<int>, depths: seq<nat>, next: seq<int>, d: nat, kb: int, user: int)
    requires ListedTo(t, kb, user, pks, depths, d)
    requires Increasing(next, PkLess) && Elems(next) == Level(t, kb, user, d) != {}
    ensures ListedTo(t, kb, user, pks + next, depths + seq(|next|, _ => d), d + 1)
    ensures t.Keys - Elems(pks + next) < t.Keys - Elems(pks)
  {
    forall i | 0 <= i < |next| ensures RootIn(t, next[i], d) {
      assert next[i] in Elems(next);
    }
    forall x ensures x in pks + next <==> Above(t, kb, user, d + 1, x) {
      assert x in Elems(next) <==> x in Level(t, kb, user, d);
    }
    Inhabited(Level(t, kb, user, d));
    var y :| y in Level(t, kb, user, d);
    NotListedYet(t, pks, depths, d, kb, user, y);
    assert y in t.Keys - Elems(pks) && y in Elems(next);
    assert y !in t.Keys - Elems(pks + next);
  }

  lemma NotListedYet(t: Table, pks: seq<int>, depths: seq<nat>, d: nat, kb: int, user: int, y: int)
    requires ListedTo(t, kb, user, pks, depths, d) && y in Level(t, kb, user, d)
    ensures y !in pks
  {
    forall i | 0 <= i < |pks| ensures pks[i] != y {
      if pks[i] == y {
        RootUnique(t, y, depths[i], d);
      }
    }
  }

  lemma AllListed(t: Table, kb: int, user: int, d: nat, pks: seq<int>, depths: seq<nat>)
    requires Tree(t) && Level(t, kb, user, d) == {} && ListedTo(t, kb, user, pks, depths, d)
    ensures ByDepth(t, pks, depths)
    ensures forall x :: x in pks <==> x in t && t[x].kb == kb && t[x].user == user
  {
    forall x | x in t && t[x].kb == kb && t[x].user == user ensures x in pks {
      assert ReachesRoot(t, x);
      var n: nat :| RootIn(t, x, n);
      assert x in Level(t, kb, user, n);
      if n >= d {
        EmptyLevel(t, kb, user, d, n, x);
      }
      assert Above(t, kb, user, d, x);
    }
  }

  // ----- the nested items

  class FolderItem {
    const id: string
    const parentId: string
    const name: string
    const isRoot: bool
    var children: seq<FolderItem>

    constructor (folder: Folder, parentId: string)
      ensures id == folder.id && name == folder.name && isRoot == folder.isRoot && this.parentId == parentId
      ensures children == []
    {
      this.id, this.parentId, name, isRoot := folder.id, parentId, folder.name, folder.isRoot;
      children := [];
    }
  }

  function ByPk(folders: seq<Folder>): map<int, Folder> {
    if folders == [] then map[]
    else ByPk(folders[..|folders| - 1])[folders[|folders| - 1].pk := folders[|folders| - 1]]
  }

  ghost predicate DistinctPks(folders: seq<Folder>) {
    forall i, j | 0 <= i < j < |folders| :: folders[i].pk != folders[j].pk
  }

  lemma {:induction false} ByPkHolds(folders: seq<Folder>)
    requires DistinctPks(folders)
    ensures forall f :: f in folders <==> f.pk in ByPk(folders) && ByPk(folders)[f.pk] == f
    ensures forall x | x in ByPk(folders) :: ByPk(folders)[x].pk == x
  {
    if folders != [] {
      var n := |folders| - 1;
      assert folders == folders[..n] + [folders[n]];
      ByPkHolds(folders[..n]);
      forall f ensures f in folders <==> f.pk in ByPk(folders) && ByPk(folders)[f.pk] == f {
        if f in folders[..n] {
          var i :| 0 <= i < n && folders[i] == f;
          assert f.pk != folders[n].pk;
        }
      }
    }
  }

  /** Shown at the top: the parent is the root or not listed. */
  function Top(m: map<int, Folder>): Folder -> bool {
    (f: Folder) => !f.isRoot && !(f.parent in m && !m[f.parent].isRoot)
  }

  /** Shown among the children of folder `p`. */
  function ChildOf(m: map<int, Folder>, p: int): Folder -> bool {
    (f: Folder) => !f.isRoot && f.parent in m && !m[f.parent].isRoot && f.parent == p
  }

  function ItemsOf(list: seq<Folder>, items: map<int, FolderItem>): (r: seq<FolderItem>)
    requires forall f | f in list :: f.pk in items
    ensures |r| == |list| && forall i | 0 <= i < |r| :: r[i] == items[list[i].pk]
  {
    seq(|list|, i requires 0 <= i < |list| => items[list[i].pk])
  }

  /** The fixed part of an item: its folder, and the public identifier of its parent. */
  ghost predicate ItemFits(item: FolderItem, m: map<int, Folder>, x: int)
    requires x in m
  {
    && item.id == m[x].id && item.name == m[x].name && item.isRoot == m[x].isRoot
    && item.parentId == if m[x].parent in m then m[m[x].parent].id else m[x].id
  }

  /** One item for each folder, all different. */
  ghost predicate ItemsFit(items: map<int, FolderItem>, m: map<int, Folder>) {
    && (forall x | x in items :: x in m && ItemFits(items[x], m, x))
    && (forall x, y | x in items && y in items && x != y :: items[x] != items[y])
  }

  method MakeItems(folders: seq<Folder>, m: map<int, Folder>) returns (items: map<int, FolderItem>)
    requires forall i | 0 <= i < |folders| :: folders[i].pk in m && m[folders[i].pk] == folders[i]
    ensures ItemsFit(items, m) && forall x | x in items :: fresh(items[x])
    ensures forall x | x in items :: items[x].children == []
    ensures forall i | 0 <= i < |folders| :: folders[i].pk in items
  {
    items := map[];
    for i := 0 to |folders|
      invariant ItemsFit(items, m) && forall x | x in items :: fresh(items[x])
      invariant forall x | x in items :: items[x].children == []
      invariant forall j | 0 <= j < i :: folders[j].pk in items
    {
      var f := folders[i];
      var item := new FolderItem(f, if f.parent in m then m[f.parent].id else f.id);
      items := items[f.pk := item];
    }
  }

  lemma ItemsAppend(a: seq<Folder>, f: Folder, items: map<int, FolderItem>)
    requires forall g | g in a + [f] :: g.pk in items
    ensures (forall g | g in a :: g.pk in items) && ItemsOf(a + [f], items) == ItemsOf(a, items) + [items[f.pk]]
  {
    forall g | g in a ensures g.pk in items {
      assert g in a + [f];
    }
  }

  function Objects(items: map<int, FolderItem>): set<FolderItem> {
    set x | x in items :: items[x]
  }

  /** The children appended so far. */
  ghost predicate Attached(folders: seq<Folder>, m: map<int, Folder>, items: map<int, FolderItem>,
                           tops: seq<FolderItem>, i: nat)
    requires i <= |folders| && forall f | f in folders :: f.pk in items
    reads Objects(items)
  {
    && tops == ItemsOf(Filter(Top(m), folders[..i]), items)
    && forall p | p in items :: items[p].children == ItemsOf(Filter(ChildOf(m, p), folders[..i]), items)
  }

  /** `_build_folder_tree`: every item is appended to the children of its parent, or shown at the top. */
  method BuildFolderTree(folders: seq<Folder>) returns (tops: seq<FolderItem>, items: map<int, FolderItem>)
    requires DistinctPks(folders)
    ensures ItemsFit(items, ByPk(folders))
    ensures forall f | f in folders :: f.pk in items
    ensures tops == ItemsOf(Filter(Top(ByPk(folders)), folders), items)
    ensures forall p | p in items :: items[p].children == ItemsOf(Filter(ChildOf(ByPk(folders), p), folders), items)
  {
    var m := ByPk(folders);
    ByPkHolds(folders);
    items := MakeItems(folders, m);
    tops := [];
    for i := 0 to |folders|
      invariant Attached(folders, m, items, tops, i)
    {
      tops := Attach(folders, m, items, tops, i);
    }
    assert folders[..|folders|] == folders;
  }

  /** The same, of the children alone. */
  ghost predicate Placed(folders: seq<Folder>, m: map<int, Folder>, items: map<int, FolderItem>, tops: seq<FolderItem>,
                         children: map<int, seq<FolderItem>>, i: nat)
    requires i <= |folders| && forall f | f in folders :: f.pk in items
  {
    && children.Keys == items.Keys
    && tops == ItemsOf(Filter(Top(m), folders[..i]), items)
    && forall p | p in items :: children[p] == ItemsOf(Filter(ChildOf(m, p), folders[..i]), items)
  }

  lemma AttachedIffPlaced(folders: seq<Folder>, m: map<int, Folder>, items: map<int, FolderItem>,
                          tops: seq<FolderItem>, children: map<int, seq<FolderItem>>, i: nat)
    requires i <= |folders| && forall f | f in folders :: f.pk in items
    requires children.Keys == items.Keys && forall p | p in items :: children[p] == items[p].children
    ensures Attached(folders, m, items, tops, i) <==> Placed(folders, m, items, tops, children, i)
  {
    hide Filter, ItemsOf, Top, ChildOf;
  }

  lemma PlaceNext(folders: seq<Folder>, m: map<int, Folder>, items: map<int, FolderItem>, tops: seq<FolderItem>,
                  children: map<int, seq<FolderItem>>, i: nat)
    requires i < |folders| && (forall f | f in folders :: f.pk in items) && Placed(folders, m, items, tops, children, i)
    requires forall x | x in m :: m[x] in folders && m[x].pk == x
    ensures var f := folders[i];
            var under := !f.isRoot && f.parent in m && !m[f.parent].isRoot;
            && (under ==> f.parent in children)
            && Placed(folders, m, items, if !f.isRoot && !under then tops + [items[f.pk]] else tops,
                      if under then children[f.parent := children[f.parent] + [items[f.pk]]] else children, i + 1)
  {
    hide Filter, ItemsOf;
    var f := folders[i];
    OneMoreFolder(m, folders, i);
    if !f.isRoot {
      if f.parent in m && !m[f.parent].isRoot {
        ItemsAppend(Filter(ChildOf(m, f.parent), folders[..i]), f, items);
      } else {
        ItemsAppend(Filter(Top(m), folders[..i]), f, items);
      }
    }
  }

  method Attach(folders: seq<Folder>, m: map<int, Folder>, items: map<int, FolderItem>, tops: seq<FolderItem>, i: nat)
    returns (r: seq<FolderItem>)
    requires i < |folders| && (forall f | f in folders :: f.pk in items) && ItemsFit(items, m)
    requires forall x | x in m :: m[x] in folders && m[x].pk == x
    requires Attached(folders, m, items, tops, i)
    modifies Objects(items)
    ensures Attached(folders, m, items, r, i + 1)
  {
    hide Filter, ItemsOf, Top, ChildOf, Placed, Attached;
    ghost var children := map p | p in items :: items[p].children;
    AttachedIffPlaced(folders, m, items, tops, children, i);
    PlaceNext(folders, m, items, tops, children, i);
    var f := folders[i];
    r := tops;
    if !f.isRoot {
      if f.parent in m && !m[f.parent].isRoot {
        items[f.parent].children := items[f.parent].children + [items[f.pk]];
        children := children[f.parent := children[f.parent] + [items[f.pk]]];
      } else {
        r := tops + [items[f.pk]];
      }
    }
    AttachedIffPlaced(folders, m, items, r, children, i + 1);
  }

  lemma OneMoreFolder(m: map<int, Folder>, folders: seq<Folder>, i: nat)
    requires i < |folders|
    ensures Filter(Top(m), folders[..i + 1])
            == Filter(Top(m), folders[..i]) + if Top(m)(folders[i]) then [folders[i]] else []
    ensures forall p :: Filter(ChildOf(m, p), folders[..i + 1])
                        == Filter(ChildOf(m, p), folders[..i]) + if ChildOf(m, p)(folders[i]) then [folders[i]] else []
  {
    FilterOneMore(Top(m), folders, i);
    forall p ensures Filter(ChildOf(m, p), folders[..i + 1])
                     == Filter(ChildOf(m, p), folders[..i]) + if ChildOf(m, p)(folders[i]) then [folders[i]] else []
    {
      FilterOneMore(ChildOf(m, p), folders, i);
    }
  }

  lemma FilterOneMore(p: Folder -> bool, folders: seq<Folder>, i: nat)
    requires i < |folders|
    ensures Filter(p, folders[..i + 1]) == Filter(p, folders[..i]) + if p(folders[i]) then [folders[i]] else []
  {
    TakeOneMore(folders, i);
    FilterAppend(p, folders[..i], [folders[i]]);
    assert [folders[i]][1..] == [];
  }

  // ----- agreement

  lemma {:induction false} FilterDistinct(p: Folder -> bool, s: seq<Folder>)
    requires Distinct(s)
    ensures Distinct(Filter(p, s))
  {
    if s != [] {
      FilterDistinct(p, s[1..]);
      forall x | x in Filter(p, s[1..]) ensures x != s[0] {
        assert x in s[1..];
      }
    }
  }

  /** The rows of one knowledge base, as a tree view receives them. */
  ghost predicate Listing(t: Table, kb: int, folders: seq<Folder>) {
    && DistinctPks(folders)
    && forall f :: f in folders <==> f.pk in t && t[f.pk] == f && f.kb == kb
  }

  lemma ListedOnce(t: Table, pks: seq<int>, depths: seq<nat>)
    requires ByDepth(t, pks, depths)
    ensures Distinct(pks)
  {
    hide RootIn;
    forall i, j | 0 <= i < j < |pks| && pks[i] == pks[j] ensures false {
      RootUnique(t, pks[i], depths[i], depths[j]);
    }
  }

  /** What `ListFolders` returns is such a listing, when all folders of the knowledge base have one owner. */
  lemma ListedRows(t: Table, kb: int, user: int, pks: seq<int>, depths: seq<nat>)
    requires Linked(t) && ByDepth(t, pks, depths) && forall x | x in t && t[x].kb == kb :: t[x].user == user
    requires forall x :: x in pks <==> x in t && t[x].kb == kb && t[x].user == user
    ensures forall i | 0 <= i < |pks| :: pks[i] in t
    ensures Listing(t, kb, Rows(t, pks))
  {
    hide RootIn, Rows;
    ListedOnce(t, pks, depths);
    hide ByDepth;
    assert forall i | 0 <= i < |pks| :: pks[i] in pks;
    var rows := Rows(t, pks);
    forall i | 0 <= i < |pks| ensures rows[i].pk == pks[i] && rows[i] == t[pks[i]] {
      assert LinkedAt(t, pks[i]);
    }
    forall f: Folder | f.pk in t && t[f.pk] == f && f.kb == kb ensures f in rows {
      assert f.pk in pks;
      var i :| 0 <= i < |pks| && pks[i] == f.pk;
      assert rows[i] == f;
    }
  }

  /** Every folder but the root is placed exactly once: among the children of its true parent, or at the top when
      that is the root, and nowhere else. */
  lemma PlacedExactlyOnce(t: Table, kb: int, folders: seq<Folder>, g: Folder)
    requires Tree(t) && Listing(t, kb, folders) && g in folders && !g.isRoot
    ensures g.parent in t && t[g.parent] in folders
    ensures var m := ByPk(folders);
            && multiset(Filter(Top(m), folders))[g] == (if t[g.parent].isRoot then 1 else 0)
            && forall p :: multiset(Filter(ChildOf(m, p), folders))[g]
                           == if p == g.parent && !t[g.parent].isRoot then 1 else 0
  {
    var m := ByPk(folders);
    assert LinkedAt(t, g.pk);
    assert LinkedAt(t, g.parent);
    ByPkHolds(folders);
    assert t[g.parent] in folders;
    assert Distinct(folders);
    FilterDistinct(Top(m), folders);
    DistinctMultiset(Filter(Top(m), folders));
    Counted(Filter(Top(m), folders), g);
    forall p
      ensures multiset(Filter(ChildOf(m, p), folders))[g] == if p == g.parent && !t[g.parent].isRoot then 1 else 0
    {
      FilterDistinct(ChildOf(m, p), folders);
      DistinctMultiset(Filter(ChildOf(m, p), folders));
      Counted(Filter(ChildOf(m, p), folders), g);
    }
  }

  lemma Counted(s: seq<Folder>, g: Folder)
    requires forall x :: multiset(s)[x] <= 1
    ensures multiset(s)[g] == if g in s then 1 else 0
  {
    assert g in multiset(s) <==> g in s;
  }

  /** `names` leads to `g` in the nested view: from an item at the top through children. */
  ghost predicate ShownAt(m: map<int, Folder>, folders: seq<Folder>, g: Folder, names: seq<string>)
    decreases |names|
  {
    && names != [] && names[|names| - 1] == g.name
    && if |names| == 1 then g in Filter(Top(m), folders)
       else exists f ::
              f in folders && g in Filter(ChildOf(m, f.pk), folders)
              && ShownAt(m, folders, f, names[..|names| - 1])
  }

  /** A folder below the root is shown at the top only. */
  lemma TopShows(m: map<int, Folder>, folders: seq<Folder>, g: Folder, names: seq<string>)
    requires g in folders && Top(m)(g)
    ensures ShownAt(m, folders, g, names) <==> names == [g.name]
  {
    assert forall p :: g !in Filter(ChildOf(m, p), folders);
  }

  lemma OnlyUnderParent(m: map<int, Folder>, folders: seq<Folder>, g: Folder, p: Folder)
    requires g in folders && p in folders && ChildOf(m, p.pk)(g) && forall f | f in folders && f.pk == p.pk :: f == p
    ensures g !in Filter(Top(m), folders)
    ensures forall f | f in folders :: g in Filter(ChildOf(m, f.pk), folders) <==> f == p
  {
    forall f | f in folders ensures g in Filter(ChildOf(m, f.pk), folders) <==> f == p {
      assert ChildOf(m, f.pk)(g) <==> f == p;
    }
  }

  /** Any other folder is shown under its parent only. */
  lemma ChildShows(m: map<int, Folder>, folders: seq<Folder>, g: Folder, p: Folder, names: seq<string>)
    requires g in folders && p in folders && ChildOf(m, p.pk)(g) && forall f | f in folders && f.pk == p.pk :: f == p
    ensures ShownAt(m, folders, g, names) <==>
              |names| > 1 && names[|names| - 1] == g.name && ShownAt(m, folders, p, names[..|names| - 1])
  {
    OnlyUnderParent(m, folders, g, p);
    hide Filter, Top, ChildOf;
  }

  /** A folder is shown in the nested view at exactly the path that `_folder_path` reports for it. */
  lemma {:induction false} NestedViewShowsPath(t: Table, kb: int, folders: seq<Folder>, g: Folder, n: nat,
                                               names: seq<string>)
    requires Tree(t) && Listing(t, kb, folders) && g in folders && !g.isRoot && RootIn(t, g.pk, n)
    ensures ShownAt(ByPk(folders), folders, g, names) <==> names == PathNames(t, g.pk, n)
    decreases n
  {
    hide ShownAt, Unique, Filter;
    var m := ByPk(folders);
    ByPkHolds(folders);
    assert LinkedAt(t, g.pk);
    assert LinkedAt(t, g.parent);
    var p := t[g.parent];
    assert p in folders;
    if p.isRoot {
      RootUnique(t, p.pk, 0, n - 1);
      TopShows(m, folders, g, names);
    } else {
      ChildShows(m, folders, g, p, names);
      var k := |names| - 1;
      NonEmptyPath(t, p.pk, n - 1);
      if names != [] {
        NestedViewShowsPath(t, kb, folders, p, n - 1, names[..k]);
        assert names == names[..k] + [names[k]];
      }
    }
  }

  lemma NonEmptyPath(t: Table, x: int, n: nat)
    requires RootIn(t, x, n) && !t[x].isRoot
    ensures n > 0 && PathNames(t, x, n) != []
  {
  }

  /** The path method and the nested view agree: the reported path is the one at which the folder is shown. */
  lemma PathIsWhereShown(t: Table, kb: int, folders: seq<Folder>, g: Folder)
    requires Tree(t) && Listing(t, kb, folders) && g in folders && !g.isRoot
    ensures ShownAt(ByPk(folders), folders, g, Reversed(Walk(t, g.user, g.pk, {})))
  {
    assert ReachesRoot(t, g.pk);
    var n: nat :| RootIn(t, g.pk, n);
    WalkIsWayToRoot(t, g.pk, n, {});
    NestedViewShowsPath(t, kb, folders, g, n, PathNames(t, g.pk, n));
  }
}
