/** The folder operations, run one after another (app/mneme/domains/documents/folders.py,
    `ensure_root_folder` in app/mneme/crud/document_folder.py). A failed operation is rolled back. */
module FolderOperations {
  import opened Wrappers
  import opened Text
  import opened FolderTree

  datatype Document = Document(id: string, user: int, kb: int, folder: int)

  datatype KnowledgeBase = KnowledgeBase(pk: int, user: int)

  /** The tables, and the case folding of names, which may be any function. */
  datatype State = State(folders: Table, documents: map<string, Document>, bases: map<string, KnowledgeBase>,
                         fold: string -> string)

  datatype Outcome = Done | Failed(code: int)

  // ----- the invariant

  /** Folders form trees, belong to known knowledge bases of their owners, are named as the service names them, and
      hold every document of their base. */
  ghost predicate Valid(s: State) {
    && Tree(s.folders)
    && (forall x | x in s.folders :: Named(s.fold, s.folders[x]))
    && InBases(s.folders, s.bases)
    && (forall b, c | b in s.bases && c in s.bases && s.bases[b].pk == s.bases[c].pk :: b == c)
    && (forall d | d in s.documents :: Filed(s.folders, s.documents[d]))
  }

  /** The root is "/"; any other folder has a name of words with single spaces between them, and is unique by its
      case-folded form. */
  ghost predicate Named(fold: string -> string, f: Folder) {
    if f.isRoot then f.name == f.normalized == "/"
    else f.name != "" && SingleSpaced(f.name) && f.normalized == fold(f.name)
  }

  ghost predicate Filed(t: Table, d: Document) {
    d.folder in t && t[d.folder].kb == d.kb && t[d.folder].user == d.user
  }

  // ----- the effects of the operations

  ghost predicate NameFree(t: Table, f: Folder) {
    forall y | y in t && y != f.pk :: !SameName(f, t[y])
  }

  ghost predicate IdFree(t: Table, id: string) {
    forall y | y in t :: t[y].id != id
  }

  ghost predicate RootCreated(s: State, u: State, f: Folder) {
    && u == s.(folders := s.folders[f.pk := f])
    && f.pk !in s.folders && IdFree(s.folders, f.id) && f.isRoot && f.parent == f.pk && Named(s.fold, f)
    && (forall y | y in s.folders :: s.folders[y].kb != f.kb)
    && exists b :: b in s.bases && s.bases[b].pk == f.kb && s.bases[b].user == f.user
  }

  ghost predicate Created(s: State, u: State, f: Folder) {
    && u == s.(folders := s.folders[f.pk := f])
    && f.pk !in s.folders && IdFree(s.folders, f.id) && !f.isRoot && NameFree(s.folders, f)
    && f.parent in s.folders && s.folders[f.parent].kb == f.kb && s.folders[f.parent].user == f.user
    && Named(s.fold, f)
  }

  /** Folder `a` becomes `f`: same row, possibly another parent and another name. */
  ghost predicate Updated(s: State, u: State, a: int, f: Folder) {
    && a in s.folders && !s.folders[a].isRoot
    && u == s.(folders := s.folders[a := f])
    && f == s.folders[a].(parent := f.parent, name := f.name, normalized := f.normalized)
    && f.parent in s.folders && s.folders[f.parent].kb == f.kb && s.folders[f.parent].user == f.user
    && (f.parent == s.folders[a].parent || MoveAllowed(s.folders, a, f.parent))
    && NameFree(s.folders, f) && Named(s.fold, f)
  }

  ghost predicate Deleted(s: State, u: State, a: int) {
    && a in s.folders && !s.folders[a].isRoot && u == s.(folders := s.folders - {a})
    && Childless(s.folders, a)
    && forall d | d in s.documents :: s.documents[d].folder != a
  }

  ghost predicate DocumentFiled(s: State, u: State, d: string) {
    && d in u.documents && u == s.(documents := s.documents[d := u.documents[d]])
    && Filed(s.folders, u.documents[d])
  }

  ghost predicate Step(s: State, u: State) {
    || s == u
    || (exists f :: RootCreated(s, u, f))
    || (exists f :: Created(s, u, f))
    || (exists a, f :: Updated(s, u, a, f))
    || (exists a :: Deleted(s, u, a))
    || (exists d :: DocumentFiled(s, u, d))
  }

  // ----- every effect keeps the invariant

  lemma RootCreatedKeeps(s: State, u: State, f: Folder)
    requires Valid(s) && RootCreated(s, u, f)
    ensures Valid(u)
  {
    RootAddedTree(s.folders, f);
    RootCreatedScope(s, f);
    hide Tree, InBases, Named;
  }

  lemma RootAddedTree(t: Table, f: Folder)
    requires Tree(t) && f.pk !in t && f.isRoot && f.parent == f.pk && IdFree(t, f.id)
    requires forall y | y in t :: t[y].kb != f.kb
    ensures Tree(t[f.pk := f])
  {
    var u := t[f.pk := f];
    assert RootIn(u, f.pk, 0);
    forall x | x in t ensures ReachesRoot(u, x) && LinkedAt(u, x) {
      assert ReachesRoot(t, x) && LinkedAt(t, x);
      var n: nat :| RootIn(t, x, n);
      RootInLarger(t, u, x, n);
    }
    assert LinkedAt(u, f.pk);
    RootCreatedUnique(t, f);
  }

  lemma RootCreatedUnique(t: Table, f: Folder)
    requires Linked(t) && Unique(t) && f.pk !in t && IdFree(t, f.id) && f.parent == f.pk
    requires forall y | y in t :: t[y].kb != f.kb
    ensures Unique(t[f.pk := f])
  {
  }

  lemma RootCreatedScope(s: State, f: Folder)
    requires InBases(s.folders, s.bases)
    requires exists b :: b in s.bases && s.bases[b].pk == f.kb && s.bases[b].user == f.user
    ensures InBases(s.folders[f.pk := f], s.bases)
  {
  }

  lemma CreatedUnique(t: Table, f: Folder)
    requires Unique(t) && f.pk !in t && IdFree(t, f.id) && !f.isRoot && NameFree(t, f)
    ensures Unique(t[f.pk := f])
  {
  }

  lemma CreatedKeeps(s: State, u: State, f: Folder)
    requires Valid(s) && Created(s, u, f)
    ensures Valid(u)
  {
    AddedLeaf(s.folders, f);
    AddedLeafLinked(s.folders, f);
    CreatedUnique(s.folders, f);
    CreatedScope(s, f);
    hide Named;
  }

  lemma CreatedScope(s: State, f: Folder)
    requires Valid(s) && f.pk !in s.folders
    requires f.parent in s.folders && s.folders[f.parent].kb == f.kb && s.folders[f.parent].user == f.user
    ensures InBases(s.folders[f.pk := f], s.bases)
  {
    hide Tree, Named;
  }

  ghost predicate InBases(t: Table, bases: map<string, KnowledgeBase>) {
    forall x | x in t :: exists b :: b in bases && bases[b].pk == t[x].kb && bases[b].user == t[x].user
  }

  lemma UpdatedTree(t: Table, a: int, f: Folder)
    requires Tree(t) && a in t && !t[a].isRoot
             && f == t[a].(parent := f.parent, name := f.name, normalized := f.normalized)
    requires f.parent in t && t[f.parent].kb == f.kb && t[f.parent].user == f.user && NameFree(t, f)
    requires f.parent == t[a].parent || MoveAllowed(t, a, f.parent)
    ensures Tree(t[a := f])
  {
    assert LinkedAt(t, a);
    UpdatedLinked(t, a, f);
    UpdatedUnique(t, a, f);
    if f.parent == t[a].parent {
      RenamedAcyclic(t, a, f);
    } else {
      MoveKeepsTreeIffAllowed(t, a, f.parent);
      var v := t[a := t[a].(parent := f.parent)];
      RenamedAcyclic(v, a, f);
      assert v[a := f] == t[a := f];
    }
  }

  lemma UpdatedLinked(t: Table, a: int, f: Folder)
    requires Linked(t) && a in t && !t[a].isRoot
             && f == t[a].(parent := f.parent, name := f.name, normalized := f.normalized)
    requires f.parent in t && f.parent != a && t[f.parent].kb == f.kb && t[f.parent].user == f.user
    ensures Linked(t[a := f])
  {
    var u := t[a := f];
    forall x | x in u ensures LinkedAt(u, x) {
      assert LinkedAt(t, x);
      assert t[x].parent in t ==> LinkedAt(t, t[x].parent);
      assert LinkedAt(t, f.parent);
    }
  }

  lemma UpdatedUnique(t: Table, a: int, f: Folder)
    requires Unique(t) && a in t && f == t[a].(parent := f.parent, name := f.name, normalized := f.normalized)
    requires f.pk == a && NameFree(t, f)
    ensures Unique(t[a := f])
  {
  }

  lemma {:induction false} RenamedRootIn(t: Table, a: int, f: Folder, x: int, n: nat)
    requires a in t && f.parent == t[a].parent && f.isRoot == t[a].isRoot && RootIn(t, x, n)
    ensures RootIn(t[a := f], x, n)
    decreases n
  {
    if n > 0 {
      RenamedRootIn(t, a, f, t[x].parent, n - 1);
    }
  }

  lemma RenamedAcyclic(t: Table, a: int, f: Folder)
    requires Acyclic(t) && a in t && f.parent == t[a].parent && f.isRoot == t[a].isRoot
    ensures Acyclic(t[a := f])
  {
    forall x | x in t ensures ReachesRoot(t[a := f], x) {
      assert ReachesRoot(t, x);
      var n: nat :| RootIn(t, x, n);
      RenamedRootIn(t, a, f, x, n);
    }
  }

  lemma UpdatedKeeps(s: State, u: State, a: int, f: Folder)
    requires Valid(s) && Updated(s, u, a, f)
    ensures Valid(u)
  {
    assert LinkedAt(s.folders, a);
    UpdatedTree(s.folders, a, f);
    hide Tree, MoveAllowed, NameFree, Named;
  }

  lemma DeletedKeeps(s: State, u: State, a: int)
    requires Valid(s) && Deleted(s, u, a)
    ensures Valid(u)
  {
    RemovedLeaf(s.folders, a);
    hide Tree, Named;
  }

  /** Every operation keeps the folders of every knowledge base one tree. */
  lemma StepKeepsValid(s: State, u: State)
    requires Valid(s) && Step(s, u)
    ensures Valid(u)
  {
    hide Valid, RootCreated, Created, Updated, Deleted;
    if f :| RootCreated(s, u, f) {
      RootCreatedKeeps(s, u, f);
    } else if f :| Created(s, u, f) {
      CreatedKeeps(s, u, f);
    } else if a, f :| Updated(s, u, a, f) {
      UpdatedKeeps(s, u, a, f);
    } else if a :| Deleted(s, u, a) {
      DeletedKeeps(s, u, a);
    } else if s != u {
      var d :| DocumentFiled(s, u, d);
      DocumentFiledKeeps(s, u, d);
    }
  }

  lemma DocumentFiledKeeps(s: State, u: State, d: string)
    requires Valid(s) && DocumentFiled(s, u, d)
    ensures Valid(u)
  {
    hide Tree, Named;
  }

  ghost predicate Run(states: seq<State>) {
    && states != [] && Valid(states[0])
    && forall i | 0 <= i < |states| - 1 :: Step(states[i], states[i + 1])
  }

  /** In every serial run, at every moment: every folder reaches in finitely many steps the one self-parented root of
      its knowledge base, which has the same owner, and every document lies in a folder of its knowledge base. */
  lemma {:induction false} EveryRunKeepsTrees(states: seq<State>, i: nat)
    requires Run(states) && i < |states|
    ensures Valid(states[i])
    ensures forall x | x in states[i].folders :: HasRoot(states[i].folders, x)
    decreases i
  {
    if i > 0 {
      EveryRunKeepsTrees(states, i - 1);
      assert Step(states[i - 1], states[i - 1 + 1]);
      StepKeepsValid(states[i - 1], states[i]);
    }
    TreesHaveRoots(states[i].folders);
  }

  ghost predicate IsRootOf(t: Table, r: int, x: int)
    requires x in t
  {
    && r in t && t[r].isRoot && t[r].parent == r && t[r].kb == t[x].kb && t[r].user == t[x].user
    && (exists n: nat :: Below(t, x, r, n))
    && forall q | q in t && t[q].isRoot && t[q].kb == t[x].kb :: q == r
  }

  ghost predicate HasRoot(t: Table, x: int)
    requires x in t
  {
    exists r :: IsRootOf(t, r, x)
  }

  lemma TreesHaveRoots(t: Table)
    requires Tree(t)
    ensures forall x | x in t :: HasRoot(t, x)
  {
    forall x | x in t ensures HasRoot(t, x) {
      assert ReachesRoot(t, x);
      var n: nat :| RootIn(t, x, n);
      var r := RootOfKnowledgeBase(t, x, n);
      assert IsRootOf(t, r, x);
    }
  }

  // ----- the operations

  /** The folder with this public identifier, if the user has one. */
  ghost predicate IsLookup(t: Table, id: string, user: int, r: Option<int>) {
    match r
    case Some(x) => x in t && t[x].id == id && t[x].user == user
    case None => forall x | x in t :: !(t[x].id == id && t[x].user == user)
  }

  /** By what a folder is unique under its parent: the root counts as "/", any other by its case-folded name. */
  function Known(fold: string -> string, f: Folder): string {
    if f.isRoot then "/" else fold(f.name)
  }

  /** A row other than `self` under `parent` is known by what `name` folds to. */
  ghost predicate Taken(s: State, parent: int, name: string, self: int) {
    exists y :: y in s.folders && y != self && s.folders[y].parent == parent
                && Known(s.fold, s.folders[y]) == s.fold(name)
  }

  /** The unique index sees what the names say. */
  lemma TakenIffNotFree(s: State, f: Folder)
    requires Valid(s) && f.parent in s.folders && s.folders[f.parent].kb == f.kb && f.normalized == s.fold(f.name)
    ensures Taken(s, f.parent, f.name, f.pk) <==> !NameFree(s.folders, f)
  {
    var t := s.folders;
    forall y | y in t ensures Known(s.fold, t[y]) == t[y].normalized && (t[y].parent == f.parent ==> t[y].kb == f.kb) {
      assert LinkedAt(t, y);
    }
    hide Tree, Named, Known;
  }

  /** In every serial run no two folders under one parent have names that fold to the same. */
  lemma SiblingsDiffer(states: seq<State>, i: nat, x: int, y: int)
    requires Run(states) && i < |states|
    ensures var s := states[i];
            x in s.folders && y in s.folders && s.folders[x].parent == s.folders[y].parent && x != y ==>
              Known(s.fold, s.folders[x]) != Known(s.fold, s.folders[y])
  {
    EveryRunKeepsTrees(states, i);
    var t := states[i].folders;
    if x in t && y in t && t[x].parent == t[y].parent {
      assert LinkedAt(t, x) && LinkedAt(t, y);
    }
  }

  /** Nothing but whitespace. */
  predicate Blank(name: string) {
    forall c | c in name :: IsSpace(c)
  }

  /** `shown` is `name` with single spaces between its words. */
  predicate DisplayOf(shown: string, name: string) {
    SingleSpaced(shown) && Words(shown) == Words(name)
  }

  lemma Displayed(name: string)
    ensures DisplayOf(OneSpaced(name), name) && OneSpaced(OneSpaced(name)) == OneSpaced(name)
    ensures OneSpaced(name) == "" <==> Blank(name)
  {
    OneSpacedIsSingle(name);
    OneSpacedKeepsWords(name);
    OneSpacedFixed(OneSpaced(name));
    hide OneSpaced, Words, SingleSpaced;
    if Blank(name) {
      BlankName(name);
    }
  }

  lemma BlankName(name: string)
    requires Blank(name)
    ensures OneSpaced(name) == ""
  {
    SqueezeBlank(name);
    SqueezeTrimLeft(name);
    SqueezeBlank(TrimLeft(name));
  }

  lemma Stays(s: State)
    ensures Step(s, s)
  {
  }

  /** A row that passed the checks keeps the invariant. */
  lemma UpdateCommits(s: State, a: int, f: Folder)
    requires Valid(s) && a in s.folders && !s.folders[a].isRoot && NameFree(s.folders, f)
    requires f == s.folders[a].(parent := f.parent, name := f.name, normalized := f.normalized)
    requires f.parent in s.folders && s.folders[f.parent].kb == f.kb && s.folders[f.parent].user == f.user
    requires f.parent == s.folders[a].parent || MoveAllowed(s.folders, a, f.parent)
    requires f.name != "" && SingleSpaced(f.name) && f.normalized == s.fold(f.name)
    ensures Valid(s.(folders := s.folders[a := f])) && Step(s, s.(folders := s.folders[a := f]))
  {
    hide Valid, SingleSpaced, NameFree, MoveAllowed;
    var u := s.(folders := s.folders[a := f]);
    assert Updated(s, u, a, f);
    UpdatedKeeps(s, u, a, f);
  }

  /** What a folder below the root is. */
  lemma BelowRoot(s: State, a: int)
    requires Valid(s) && a in s.folders && !s.folders[a].isRoot
    ensures var f := s.folders[a];
            && f.pk == a && f.name != "" && SingleSpaced(f.name) && f.normalized == s.fold(f.name)
            && f.parent in s.folders && s.folders[f.parent].kb == f.kb && s.folders[f.parent].user == f.user
    ensures Tree(s.folders) && !OnCycle(s.folders, a)
  {
    assert LinkedAt(s.folders, a);
    NoCycleInTree(s.folders, a);
  }

  lemma Commits(s: State, f: Folder, name: string)
    requires Valid(s) && f.pk !in s.folders && IdFree(s.folders, f.id) && !f.isRoot && NameFree(s.folders, f)
    requires f.parent in s.folders && s.folders[f.parent].kb == f.kb && s.folders[f.parent].user == f.user
    requires f.name == OneSpaced(name) != "" && f.normalized == s.fold(f.name)
    ensures Valid(s.(folders := s.folders[f.pk := f])) && Step(s, s.(folders := s.folders[f.pk := f]))
  {
    hide Valid, OneSpaced, SingleSpaced, NameFree, IdFree;
    OneSpacedIsSingle(name);
    var u := s.(folders := s.folders[f.pk := f]);
    assert Created(s, u, f);
    CreatedKeeps(s, u, f);
  }

  /** What `POST` answers, in the order of its checks; `None` if it succeeds. */
  ghost function CreateCode(s: State, user: int, base: string, parent: Option<int>, name: string, pk: int): Option<int>
    requires parent.Some? ==> parent.value in s.folders
  {
    if base !in s.bases then Some(4042)
    else if s.bases[base].user != user then Some(4007)
    else if parent.None? || s.folders[parent.value].kb != s.bases[base].pk then Some(4045)
    else if Blank(name) then Some(4024)
    else if Taken(s, parent.value, OneSpaced(name), pk) then Some(4026)
    else None
  }

  /** What `PATCH` answers, in the order of its checks. `target` and `parent` are the rows looked up. */
  ghost function UpdateCode(s: State, target: Option<int>, parentId: Option<string>, parent: Option<int>,
                            name: Option<string>): Option<int>
    requires target.Some? ==> target.value in s.folders
    requires parent.Some? ==> parent.value in s.folders
  {
    var t := s.folders;
    if target.None? then Some(4045)
    else if t[target.value].isRoot then Some(4027)
    else if parentId.Some? && parent.None? then Some(4045)
    else if parentId.Some? && t[parent.value].kb != t[target.value].kb then Some(4028)
    else if parentId.Some? && !MoveAllowed(t, target.value, parent.value) then Some(4025)
    else if name.Some? && Blank(name.value) then Some(4024)
    else if Taken(s, if parentId.Some? then parent.value else t[target.value].parent,
                  if name.Some? then OneSpaced(name.value) else t[target.value].name, target.value) then Some(4026)
    else None
  }

  function Answer(code: Option<int>): Outcome {
    if code.Some? then Failed(code.value) else Done
  }

  class FolderService {
    var folders: Table
    var documents: map<string, Document>
    var bases: map<string, KnowledgeBase>
    const fold: string -> string

    ghost function S(): State
      reads this
    {
      State(folders, documents, bases, fold)
    }

    constructor (known: map<string, KnowledgeBase>, fold: string -> string)
      requires forall b, c | b in known && c in known && known[b].pk == known[c].pk :: b == c
      ensures Valid(S()) && folders == map[] && documents == map[] && bases == known
      ensures this.fold == fold
    {
      folders, documents, bases := map[], map[], known;
      this.fold := fold;
    }

    method Lookup(id: string, user: int) returns (r: Option<int>)
      ensures IsLookup(folders, id, user, r)
    {
      if x :| x in folders && folders[x].id == id && folders[x].user == user {
        return Some(x);
      }
      return None;
    }

    /** The unique index on (knowledge base, parent, normalized name), as seen by row `f`. */
    method NameTaken(f: Folder) returns (taken: bool)
      ensures taken <==> !NameFree(folders, f)
    {
      taken := exists y :: y in folders && y != f.pk && SameName(f, folders[y]);
    }

    /** `ensure_root_folder`; `pk` and `id` are drawn by the database and the identifier generator. */
    method EnsureRoot(base: string, pk: int, id: string) returns (root: int)
      requires Valid(S()) && base in bases && pk !in folders && IdFree(folders, id)
      modifies this`folders
      ensures Valid(S()) && Step(old(S()), S())
      ensures root in folders && folders[root].isRoot && folders[root].kb == bases[base].pk
      ensures if root in old(folders) then folders == old(folders)
              else root == pk && folders == old(folders)[pk := folders[pk]] && folders[pk].id == id
    {
      var kb := bases[base];
      if x :| x in folders && folders[x].isRoot && folders[x].kb == kb.pk {
        return x;
      }
      NoRootNoFolder(folders, kb.pk);
      var f := Folder(pk, id, kb.user, kb.pk, pk, "/", "/", true);
      ghost var before := S();
      folders := folders[pk := f];
      assert RootCreated(before, S(), f);
      RootCreatedKeeps(before, S(), f);
      root := pk;
    }

    /** `create_folder_api`. */
    method Create(user: int, base: string, parentId: string, name: string, pk: int, id: string)
      returns (outcome: Outcome, ghost parent: Option<int>)
      requires Valid(S()) && pk !in folders && IdFree(folders, id)
      modifies this`folders
      ensures Valid(S()) && Step(old(S()), S())
      ensures IsLookup(old(folders), parentId, user, parent)
      ensures outcome == Answer(CreateCode(old(S()), user, base, parent, name, pk))
      ensures outcome.Failed? ==> folders == old(folders)
      ensures outcome.Done? ==>
                && pk in folders && folders == old(folders)[pk := folders[pk]] && DisplayOf(folders[pk].name, name)
                && folders[pk] == Folder(pk, id, user, bases[base].pk, parent.value, folders[pk].name,
                                         fold(folders[pk].name), false)
    {
      hide Words, OneSpaced, SingleSpaced, Valid, NameFree, Taken, Blank, DisplayOf, Step, IdFree;
      Stays(S());
      var p := Lookup(parentId, user);
      parent := p;
      if base !in bases {
        return Failed(4042), parent;
      }
      if bases[base].user != user {
        return Failed(4007), parent;
      }
      if p.None? || folders[p.value].kb != bases[base].pk {
        return Failed(4045), parent;
      }
      Displayed(name);
      var display := OneSpaced(name);
      if display == "" {
        return Failed(4024), parent;
      }
      var f := Folder(pk, id, user, bases[base].pk, p.value, display, fold(OneSpaced(display)), false);
      TakenIffNotFree(S(), f);
      var taken := NameTaken(f);
      if taken {
        return Failed(4026), parent;
      }
      Commits(S(), f, name);
      folders := folders[pk := f];
      outcome := Done;
    }

    /** `update_folder_api`: rename, move, or both. */
    method Update(user: int, folderId: string, parentId: Option<string>, name: Option<string>)
      returns (outcome: Outcome, ghost target: Option<int>, ghost parent: Option<int>)
      requires Valid(S())
      modifies this`folders
      ensures Valid(S()) && Step(old(S()), S())
      ensures IsLookup(old(folders), folderId, user, target)
      ensures parent.Some? ==> parentId.Some? && IsLookup(old(folders), parentId.value, user, parent)
      ensures parentId.Some? && parent.None? && target.Some? && !old(folders)[target.value].isRoot ==>
                IsLookup(old(folders), parentId.value, user, None)
      ensures outcome == Answer(UpdateCode(old(S()), target, parentId, parent, name))
      ensures outcome.Failed? ==> folders == old(folders)
      ensures outcome.Done? ==>
                var a, f := target.value, old(folders)[target.value];
                && a in folders && folders == old(folders)[a := folders[a]]
                && folders[a] == f.(parent := if parent.Some? then parent.value else f.parent,
                                    name := folders[a].name, normalized := fold(folders[a].name))
                && if name.Some? then DisplayOf(folders[a].name, name.value) else folders[a].name == f.name
    {
      hide Words, OneSpaced, SingleSpaced, Valid, NameFree, Taken, Blank, DisplayOf, Step, Tree, OnCycle, Descendants;
      Stays(S());
      parent := None;
      var a := Lookup(folderId, user);
      target := a;
      if a.None? {
        return Failed(4045), target, parent;
      }
      var f := folders[a.value];
      if f.isRoot {
        return Failed(4027), target, parent;
      }
      BelowRoot(S(), a.value);
      if parentId.Some? {
        var p := Lookup(parentId.value, user);
        parent := p;
        if p.None? {
          return Failed(4045), target, parent;
        }
        if folders[p.value].kb != f.kb {
          return Failed(4028), target, parent;
        }
        var descendants := DescendantPks(folders, a.value);
        if a.value == p.value || p.value in descendants {
          return Failed(4025), target, parent;
        }
        f := f.(parent := p.value);
      }
      if name.Some? {
        OneSpacedIsSingle(name.value);
        Displayed(name.value);
        var display := OneSpaced(name.value);
        if display == "" {
          return Failed(4024), target, parent;
        }
        f := f.(name := display, normalized := fold(OneSpaced(display)));
      }
      TakenIffNotFree(S(), f);
      var taken := NameTaken(f);
      if taken {
        return Failed(4026), target, parent;
      }
      UpdateCommits(S(), a.value, f);
      folders := folders[a.value := f];
      outcome := Done;
    }

    /** `delete_folder_api`: only an empty folder that is not a root. */
    method Delete(user: int, folderId: string) returns (outcome: Outcome, ghost target: Option<int>)
      requires Valid(S())
      modifies this`folders
      ensures Valid(S()) && Step(old(S()), S())
      ensures IsLookup(old(folders), folderId, user, target)
      ensures outcome == Failed(4045) <==> target.None?
      ensures outcome == Failed(4027) <==> target.Some? && old(folders)[target.value].isRoot
      ensures outcome == Failed(4029) <==>
                && target.Some? && !old(folders)[target.value].isRoot
                && !(Childless(old(folders), target.value)
                     && forall d | d in documents :: documents[d].folder != target.value)
      ensures outcome.Failed? ==> folders == old(folders)
      ensures outcome.Done? ==> target.Some? && Deleted(old(S()), S(), target.value)
    {
      var a := Lookup(folderId, user);
      target := a;
      if a.None? {
        return Failed(4045), target;
      }
      if folders[a.value].isRoot {
        return Failed(4027), target;
      }
      if (exists d :: d in documents && documents[d].folder == a.value)
         || (exists y :: y in folders && y != a.value && folders[y].parent == a.value) {
        return Failed(4029), target;
      }
      ghost var before := S();
      folders := folders - {a.value};
      assert Deleted(before, S(), a.value);
      DeletedKeeps(before, S(), a.value);
      outcome := Done;
    }

    /** `move_document_api`. */
    method MoveDocument(user: int, documentId: string, folderId: string)
      returns (outcome: Outcome, ghost target: Option<int>)
      requires Valid(S())
      modifies this`documents
      ensures Valid(S()) && Step(old(S()), S())
      ensures IsLookup(folders, folderId, user, target)
      ensures outcome.Failed? ==> documents == old(documents)
      ensures outcome == Failed(4044) <==> !(documentId in old(documents) && old(documents)[documentId].user == user)
      ensures outcome == Failed(4045) <==>
                documentId in old(documents) && old(documents)[documentId].user == user && target.None?
      ensures outcome == Failed(4030) <==>
                && documentId in old(documents) && old(documents)[documentId].user == user && target.Some?
                && folders[target.value].kb != old(documents)[documentId].kb
      ensures outcome.Done? ==>
                target.Some?
                && documents == old(documents)[documentId := old(documents)[documentId].(folder := target.value)]
    {
      var p := Lookup(folderId, user);
      target := p;
      if documentId !in documents || documents[documentId].user != user {
        return Failed(4044), target;
      }
      if p.None? {
        return Failed(4045), target;
      }
      var d := documents[documentId];
      if folders[p.value].kb != d.kb {
        return Failed(4030), target;
      }
      ghost var before := S();
      documents := documents[documentId := d.(folder := p.value)];
      assert DocumentFiled(before, S(), documentId);
      DocumentFiledKeeps(before, S(), documentId);
      outcome := Done;
    }
  }

  /** A knowledge base without a root has no folders. */
  lemma NoRootNoFolder(t: Table, kb: int)
    requires Tree(t) && forall x | x in t && t[x].isRoot :: t[x].kb != kb
    ensures forall x | x in t :: t[x].kb != kb
  {
    forall x | x in t ensures t[x].kb != kb {
      assert ReachesRoot(t, x);
      var n: nat :| RootIn(t, x, n);
      var r := RootOfKnowledgeBase(t, x, n);
    }
  }
}
