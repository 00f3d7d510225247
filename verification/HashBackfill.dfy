/** Content hashes of documents: uploads, and the backfill of documents stored before hashes existed
    (app/mneme/domains/documents/upload_service.py, scripts/backfill_document_hashes.py, app/mneme/crud/document.py).
    The hash of a document's raw file is an input, `None` where the file is missing. */
module HashBackfill {
  import opened Wrappers
  import opened Sorting

  datatype Document = Document(pk: int, id: string, kb: int, fileName: string, normalizedName: Option<string>,
                               hash: Option<string>, duplicateOf: Option<string>, versionGroup: string)

  type Table = map<int, Document>

  type HashKey = (int, string)

  /** Where the raw files are and what `normalize_file_name` does; every result holds for any of them. */
  datatype Env = Env(digest: int -> Option<string>, normalize: string -> string)

  predicate IsCanonical(d: Document, k: HashKey) {
    d.kb == k.0 && d.hash == Some(k.1) && d.duplicateOf == None
  }

  ghost predicate NoCanonical(t: Table, k: HashKey) {
    forall x | x in t :: !IsCanonical(t[x], k)
  }

  /** `find_canonical_by_hash`: the canonical document with the smallest key. */
  ghost predicate IsLookup(t: Table, k: HashKey, r: Option<int>) {
    match r
    case None => NoCanonical(t, k)
    case Some(x) => x in t && IsCanonical(t[x], k) && forall y | y in t && IsCanonical(t[y], k) :: x <= y
  }

  // ----- the invariant

  ghost predicate Identified(t: Table) {
    && (forall x | x in t :: t[x].pk == x)
    && (forall x, y | x in t && y in t && t[x].id == t[y].id :: x == y)
  }

  /** The unique index: at most one canonical document per knowledge base and hash. */
  ghost predicate OneCanonical(t: Table) {
    forall x, y, k: HashKey | x in t && y in t && IsCanonical(t[x], k) && IsCanonical(t[y], k) :: x == y
  }

  /** `c` is the canonical document of the hashed document `x`, which is `c` itself or points to it. */
  ghost predicate PointsTo(t: Table, x: int, c: int)
    requires x in t && t[x].hash.Some?
  {
    && c in t && IsCanonical(t[c], (t[x].kb, t[x].hash.value))
    && (if x == c then t[x].duplicateOf == None else t[x].duplicateOf == Some(t[c].id))
  }

  /** Every hashed document has its canonical document; a document without a hash duplicates nothing. */
  ghost predicate Resolved(t: Table) {
    forall x | x in t :: if t[x].hash.Some? then exists c :: PointsTo(t, x, c) else t[x].duplicateOf == None
  }

  ghost predicate Valid(t: Table) {
    Identified(t) && OneCanonical(t) && Resolved(t)
  }

  /** In a valid table every (knowledge base, hash) in use has exactly one canonical document, and every document
      with that hash is it or points to it. */
  lemma ExactlyOneCanonical(t: Table, x: int)
    requires Valid(t) && x in t && t[x].hash.Some?
    ensures exists c :: PointsTo(t, x, c)
                        && forall y | y in t && t[y].kb == t[x].kb && t[y].hash == t[x].hash :: PointsTo(t, y, c)
  {
    hide Identified;
    var c :| PointsTo(t, x, c);
    forall y | y in t && t[y].kb == t[x].kb && t[y].hash == t[x].hash ensures PointsTo(t, y, c) {
      var e :| PointsTo(t, y, e);
      hide Resolved;
      assert e == c;
    }
  }

  // ----- hashing one document

  /** The row after the backfill has hashed it; `canonical` is the identifier of its canonical document. */
  function Hashed(env: Env, d: Document, digest: string, canonical: string): Document {
    d.(hash := Some(digest), normalizedName := Some(env.normalize(d.fileName)),
       duplicateOf := if d.id == canonical then None else Some(canonical),
       versionGroup := if d.versionGroup == "" then d.id else d.versionGroup)
  }

  lemma HashingKeepsOne(env: Env, t: Table, x: int, digest: string, found: Option<int>)
    requires Identified(t) && OneCanonical(t) && x in t && t[x].hash == None && IsLookup(t, (t[x].kb, digest), found)
    ensures var c := if found.Some? then found.value else x;
            var u := t[x := Hashed(env, t[x], digest, t[c].id)];
            OneCanonical(u) && IsLookup(u, (t[x].kb, digest), Some(c))
  {
  }

  lemma HashingKeepsResolved(env: Env, t: Table, x: int, digest: string, c: int)
    requires Identified(t) && Resolved(t) && x in t && t[x].hash == None && c in t
    requires c == x || IsCanonical(t[c], (t[x].kb, digest))
    ensures Resolved(t[x := Hashed(env, t[x], digest, t[c].id)])
  {
    var u := t[x := Hashed(env, t[x], digest, t[c].id)];
    assert c == x <==> t[c].id == t[x].id;
    hide Identified;
    assert PointsTo(u, x, c);
    forall y | y in u && y != x && u[y].hash.Some? ensures exists e :: PointsTo(u, y, e) {
      var e :| PointsTo(t, y, e);
      assert e != x;
      assert PointsTo(u, y, e);
    }
  }

  lemma HashingKeepsValid(env: Env, t: Table, x: int, digest: string, found: Option<int>)
    requires Valid(t) && x in t && t[x].hash == None && IsLookup(t, (t[x].kb, digest), found)
    ensures var c := if found.Some? then found.value else x;
            var u := t[x := Hashed(env, t[x], digest, t[c].id)];
            Valid(u) && IsLookup(u, (t[x].kb, digest), Some(c))
  {
    hide OneCanonical, Resolved;
    var c := if found.Some? then found.value else x;
    HashingKeepsOne(env, t, x, digest, found);
    HashingKeepsResolved(env, t, x, digest, c);
  }

  // ----- what hashing a set of documents comes to

  /** The document `x` of `S` became hashed with canonical document `c`: the one there was, or the first of `S`. */
  ghost predicate Chosen(env: Env, t: Table, u: Table, S: set<int>, x: int, digest: string, c: int)
    requires x in t && x in u
  {
    && c in t && c in u && u[x] == Hashed(env, t[x], digest, t[c].id) && IsCanonical(u[c], (t[x].kb, digest))
    && (if c in S then c <= x && NoCanonical(t, (t[x].kb, digest)) else IsCanonical(t[c], (t[x].kb, digest)))
  }

  ghost predicate GotHash(env: Env, t: Table, u: Table, S: set<int>, x: int)
    requires x in t && x in u && env.digest(x).Some?
  {
    exists c :: Chosen(env, t, u, S, x, env.digest(x).value, c)
  }

  /** `u` is `t` with the unhashed documents `S` hashed, save those without a file; nothing else changed. */
  ghost predicate Effect(env: Env, t: Table, u: Table, S: set<int>) {
    && u.Keys == t.Keys && S <= t.Keys && Valid(u)
    && (forall x | x in S :: t[x].hash == None)
    && (forall x | x in t && (x !in S || env.digest(x) == None) :: u[x] == t[x])
    && (forall x {:trigger GotHash(env, t, u, S, x)} | x in S && env.digest(x).Some? :: GotHash(env, t, u, S, x))
  }

  lemma NoEffect(env: Env, t: Table, S: set<int>)
    requires Valid(t) && S <= t.Keys && forall x | x in S :: t[x].hash == None && env.digest(x) == None
    ensures Effect(env, t, t, S)
  {
  }

  lemma HashingIsEffect(env: Env, t: Table, x: int, digest: string, found: Option<int>)
    requires Valid(t) && x in t && t[x].hash == None && IsLookup(t, (t[x].kb, digest), found)
             && env.digest(x) == Some(digest)
    ensures var c := if found.Some? then found.value else x;
            Effect(env, t, t[x := Hashed(env, t[x], digest, t[c].id)], {x})
  {
    var c := if found.Some? then found.value else x;
    var u := t[x := Hashed(env, t[x], digest, t[c].id)];
    HashingKeepsValid(env, t, x, digest, found);
    hide Valid, NoCanonical;
    assert Chosen(env, t, u, {x}, x, digest, c);
  }

  lemma StillNone(env: Env, t: Table, u: Table, S: set<int>, k: HashKey)
    requires Effect(env, t, u, S) && NoCanonical(u, k)
    ensures NoCanonical(t, k)
  {
    hide Valid;
    forall e | e in t ensures !IsCanonical(t[e], k) {
      assert t[e].hash == None || u[e] == t[e];
    }
  }

  /** A canonical document among `S` is the first with its hash and had no predecessor. */
  lemma FirstIsNew(env: Env, t: Table, u: Table, S: set<int>, k: HashKey, c: int)
    requires Effect(env, t, u, S) && c in S && IsCanonical(u[c], k)
    ensures t[c].kb == k.0 && env.digest(c) == Some(k.1) && NoCanonical(t, k)
    ensures forall y | y in S && t[y].kb == k.0 && env.digest(y) == Some(k.1) :: c <= y
  {
    hide Resolved;
    assert env.digest(c).Some?;
    assert GotHash(env, t, u, S, c);
    var e :| Chosen(env, t, u, S, c, env.digest(c).value, e);
    assert e == c;
    forall y | y in S && t[y].kb == k.0 && env.digest(y) == Some(k.1) ensures c <= y {
      assert GotHash(env, t, u, S, y);
      var f :| Chosen(env, t, u, S, y, k.1, f);
      assert f == c;
    }
  }

  lemma SameIds(env: Env, t: Table, u: Table, S: set<int>, x: int)
    requires Effect(env, t, u, S) && x in t
    ensures u[x].id == t[x].id && u[x].kb == t[x].kb
  {
    hide Valid;
    if x in S && env.digest(x).Some? {
      assert GotHash(env, t, u, S, x);
      var c :| Chosen(env, t, u, S, x, env.digest(x).value, c);
    }
  }

  lemma ChosenEarlier(env: Env, t: Table, u: Table, v: Table, S: set<int>, R: set<int>, x: int, digest: string, c: int)
    requires Effect(env, t, u, S) && Effect(env, u, v, R) && S !! R && x in S && Chosen(env, t, u, S, x, digest, c)
    ensures Chosen(env, t, v, S + R, x, digest, c)
  {
    hide Valid;
  }

  lemma ChosenLater(env: Env, t: Table, u: Table, v: Table, S: set<int>, R: set<int>, x: int, digest: string, c: int)
    requires Effect(env, t, u, S) && Effect(env, u, v, R) && S !! R && forall x, y | x in S && y in R :: x < y
    requires x in R && Chosen(env, u, v, R, x, digest, c)
    ensures Chosen(env, t, v, S + R, x, digest, c)
  {
    hide Valid, Hashed;
    var k := (t[x].kb, digest);
    assert x !in S && u[x] == t[x];
    SameIds(env, t, u, S, c);
    if c in R {
      StillNone(env, t, u, S, k);
    } else {
      assert u[c] == v[c];
      hide IsCanonical;
      if c in S {
        FirstIsNew(env, t, u, S, k, c);
      }
    }
  }

  /** Hashing `S` and then the later documents `R` is hashing all of them. */
  lemma EffectsCompose(env: Env, t: Table, u: Table, v: Table, S: set<int>, R: set<int>)
    requires Effect(env, t, u, S) && Effect(env, u, v, R) && S !! R && forall x, y | x in S && y in R :: x < y
    ensures Effect(env, t, v, S + R)
  {
    hide Valid, Chosen;
    forall x | x in S + R && env.digest(x).Some?
      ensures GotHash(env, t, v, S + R, x)
    {
      HashCarries(env, t, u, v, S, R, x);
    }
    FramesCompose(env, t, u, v, S, R);
  }

  lemma FramesCompose(env: Env, t: Table, u: Table, v: Table, S: set<int>, R: set<int>)
    requires Effect(env, t, u, S) && Effect(env, u, v, R) && S !! R
    ensures forall x | x in S + R :: t[x].hash == None
    ensures forall x | x in t && (x !in S + R || env.digest(x) == None) :: v[x] == t[x]
  {
    hide Valid, Chosen;
  }

  lemma HashCarries(env: Env, t: Table, u: Table, v: Table, S: set<int>, R: set<int>, x: int)
    requires Effect(env, t, u, S) && Effect(env, u, v, R) && S !! R && forall x, y | x in S && y in R :: x < y
    requires x in S + R && env.digest(x).Some?
    ensures GotHash(env, t, v, S + R, x)
  {
    hide Valid, Chosen;
    var digest := env.digest(x).value;
    if x in S {
      assert GotHash(env, t, u, S, x);
      var c :| Chosen(env, t, u, S, x, digest, c);
      ChosenEarlier(env, t, u, v, S, R, x, digest, c);
    } else {
      assert GotHash(env, u, v, R, x);
      var c :| Chosen(env, u, v, R, x, digest, c);
      ChosenLater(env, t, u, v, S, R, x, digest, c);
    }
  }

  /** The outcome is fixed by the documents hashed, not by how they were divided into batches. */
  lemma EffectIsUnique(env: Env, t: Table, u: Table, v: Table, S: set<int>)
    requires Valid(t) && Effect(env, t, u, S) && Effect(env, t, v, S)
    ensures u == v
  {
    hide Valid, Chosen;
    forall x | x in t ensures u[x] == v[x] {
      if x in S && env.digest(x).Some? {
        var digest := env.digest(x).value;
        assert GotHash(env, t, u, S, x);
        var c :| Chosen(env, t, u, S, x, digest, c);
        assert GotHash(env, t, v, S, x);
        var e :| Chosen(env, t, v, S, x, digest, e);
        SameChoice(env, t, u, v, S, x, digest, c, e);
      }
    }
  }

  lemma SameChoice(env: Env, t: Table, u: Table, v: Table, S: set<int>, x: int, digest: string, c: int, e: int)
    requires Valid(t) && Effect(env, t, u, S) && Effect(env, t, v, S) && x in S
    requires Chosen(env, t, u, S, x, digest, c) && Chosen(env, t, v, S, x, digest, e)
    ensures u[x] == v[x]
  {
    var k := (t[x].kb, digest);
    assert x in u && x in v;
    hide Resolved, Effect, Identified, IsCanonical, NoCanonical, Hashed;
    if c in S && e in S {
      FirstIsNew(env, t, u, S, k, c);
      FirstIsNew(env, t, v, S, k, e);
    }
    OnlyCanonical(t, S, k, c, e);
  }

  /** There is one canonical document: the one there was, or the first of `S`. */
  lemma OnlyCanonical(t: Table, S: set<int>, k: HashKey, c: int, e: int)
    requires OneCanonical(t) && c in t && e in t
    requires if c in S then NoCanonical(t, k) else IsCanonical(t[c], k)
    requires if e in S then NoCanonical(t, k) else IsCanonical(t[e], k)
    requires c in S && e in S ==> c == e
    ensures c == e
  {
  }

  /** A document hashed with the digest of its file: it has the digest and its normalised name; it points to no document
      if it is the canonical one with that content, and to that one otherwise; and it starts a version group of its own
      unless it has one. The rest of its row stays. */
  ghost predicate RowTells(env: Env, u: Table, was: Document, now: Document, digest: string) {
    && now.pk == was.pk && now.id == was.id && now.kb == was.kb && now.fileName == was.fileName
    && now.hash == Some(digest) && now.normalizedName == Some(env.normalize(was.fileName))
    && now.versionGroup == (if was.versionGroup == "" then was.id else was.versionGroup)
    && exists c :: && c in u && u[c].kb == was.kb && u[c].hash == Some(digest) && u[c].duplicateOf == None
                   && now.duplicateOf == if u[c].id == was.id then None else Some(u[c].id)
  }

  /** The canonical documents that a backfill adds are the first of the hashed ones with their content. */
  ghost predicate FirstWithContent(env: Env, t: Table, u: Table, S: set<int>, c: int)
    requires c in t && c in u
  {
    c in S && u[c].hash.Some? && u[c].duplicateOf == None ==>
      && (forall y | y in t && t[y].kb == t[c].kb :: !(t[y].hash == u[c].hash && t[y].duplicateOf == None))
      && (forall y | y in S && y in t && t[y].kb == t[c].kb && env.digest(y) == u[c].hash :: c <= y)
  }

  /** What hashing `S` does to every row. */
  lemma EffectTells(env: Env, t: Table, u: Table, S: set<int>, x: int)
    requires Effect(env, t, u, S) && x in t
    ensures x in u
    ensures if x in S && env.digest(x).Some? then RowTells(env, u, t[x], u[x], env.digest(x).value) else u[x] == t[x]
    ensures FirstWithContent(env, t, u, S, x)
  {
    hide Resolved;
    if x in S && env.digest(x).Some? {
      assert GotHash(env, t, u, S, x);
      var c :| Chosen(env, t, u, S, x, env.digest(x).value, c);
      SameIds(env, t, u, S, c);
      hide Effect;
    }
    if x in S && u[x].hash.Some? && u[x].duplicateOf == None {
      assert IsCanonical(u[x], (u[x].kb, u[x].hash.value));
      FirstIsNew(env, t, u, S, (u[x].kb, u[x].hash.value), x);
    }
  }

  // ----- uploads and deletions

  /** The row of a new upload; `lineage` is the version group of the latest document of the same name, if any. */
  function Fresh(env: Env, pk: int, id: string, kb: int, fileName: string, digest: string,
                 lineage: Option<string>): Document {
    Document(pk, id, kb, fileName, Some(env.normalize(fileName)), Some(digest), None,
             if lineage.Some? then lineage.value else id)
  }

  ghost predicate Unused(t: Table, pk: int, id: string) {
    pk !in t && forall x | x in t :: t[x].id != id
  }

  lemma NotUnused(t: Table, pk: int, id: string, x: int)
    requires Unused(t, pk, id) && x in t
    ensures x != pk
  {
  }

  lemma UploadKeepsValid(env: Env, t: Table, pk: int, id: string, kb: int, fileName: string, digest: string,
                         lineage: Option<string>)
    requires Valid(t) && Unused(t, pk, id) && NoCanonical(t, (kb, digest))
    ensures Valid(t[pk := Fresh(env, pk, id, kb, fileName, digest, lineage)])
  {
    var u := t[pk := Fresh(env, pk, id, kb, fileName, digest, lineage)];
    forall x | x in u && u[x].hash.Some? ensures exists c :: PointsTo(u, x, c) {
      if x == pk {
        assert PointsTo(u, pk, pk);
      } else {
        var c :| PointsTo(t, x, c);
        assert PointsTo(u, x, c);
      }
    }
  }

  lemma UniqueBroken(t: Table, x: int, y: int, k: HashKey)
    requires x in t && y in t && x != y && IsCanonical(t[x], k) && IsCanonical(t[y], k)
    ensures !OneCanonical(t)
  {
  }

  /** Without the check for an existing canonical document the upload would break the invariant. */
  lemma UploadNeedsCheck(env: Env, t: Table, pk: int, id: string, kb: int, fileName: string, digest: string,
                         lineage: Option<string>)
    requires Valid(t) && Unused(t, pk, id)
    ensures Valid(t[pk := Fresh(env, pk, id, kb, fileName, digest, lineage)]) <==> NoCanonical(t, (kb, digest))
  {
    var u := t[pk := Fresh(env, pk, id, kb, fileName, digest, lineage)];
    if NoCanonical(t, (kb, digest)) {
      UploadKeepsValid(env, t, pk, id, kb, fileName, digest, lineage);
    } else {
      hide Resolved, OneCanonical;
      var x :| x in t && IsCanonical(t[x], (kb, digest));
      UniqueBroken(u, x, pk, (kb, digest));
      assert IsCanonical(u[x], (kb, digest)) && IsCanonical(u[pk], (kb, digest));
    }
  }

  lemma DeletionOfUnreferenced(t: Table, x: int)
    requires Valid(t) && x in t && forall y | y in t && y != x :: t[y].duplicateOf != Some(t[x].id)
    ensures Resolved(t - {x})
  {
    hide OneCanonical, Identified;
    var u := t - {x};
    forall y | y in u && u[y].hash.Some? ensures exists c :: PointsTo(u, y, c) {
      var c :| PointsTo(t, y, c);
      assert c != x;
      assert PointsTo(u, y, c);
    }
  }

  lemma DeletionOfReferenced(t: Table, x: int, y: int)
    requires Identified(t) && x in t && y in t && y != x && t[y].duplicateOf == Some(t[x].id)
    ensures !Resolved(t - {x})
  {
    var u := t - {x};
    assert y in u;
    forall c | u[y].hash.Some? ensures !PointsTo(u, y, c) {
    }
  }

  /** Deleting a row does not repair the rows that duplicate it: the invariant survives exactly when there are none. */
  lemma DeletionKeepsValidIff(t: Table, x: int)
    requires Valid(t) && x in t
    ensures Valid(t - {x}) <==> forall y | y in t && y != x :: t[y].duplicateOf != Some(t[x].id)
  {
    var u := t - {x};
    assert Identified(u) && OneCanonical(u) by {
      hide Resolved;
    }
    hide Resolved, Identified, OneCanonical;
    if y :| y in t && y != x && t[y].duplicateOf == Some(t[x].id) {
      DeletionOfReferenced(t, x, y);
    } else {
      DeletionOfUnreferenced(t, x);
    }
  }

  /** Two documents with equal content, hashed by one batch: the earlier one becomes canonical, the later one points to
      it, and deleting the earlier one leaves the later one pointing to nothing. */
  lemma DeletedCanonicalStrands(env: Env, a: Document, b: Document, digest: string) returns (t: Table, u: Table)
    requires a.pk < b.pk && a.id != b.id && a.kb == b.kb
    requires a.hash == b.hash == None && a.duplicateOf == b.duplicateOf == None
    requires env.digest(a.pk) == env.digest(b.pk) == Some(digest)
    ensures t == map[a.pk := a, b.pk := b] && Valid(t) && Effect(env, t, u, {a.pk, b.pk})
    ensures Valid(u) && IsCanonical(u[a.pk], (a.kb, digest)) && u[b.pk].duplicateOf == Some(a.id)
    ensures !Valid(u - {a.pk})
  {
    hide Effect, Valid, NoCanonical;
    t := map[a.pk := a, b.pk := b];
    UnhashedIsValid(t);
    var s := FirstHashed(env, t, a, b, digest);
    u := SecondHashed(env, t, s, a, b, digest);
    DeletionKeepsValidIff(u, a.pk);
  }

  lemma SecondHashed(env: Env, t: Table, s: Table, a: Document, b: Document, digest: string) returns (u: Table)
    requires a.pk < b.pk && a.id != b.id && a.kb == b.kb && a.hash == b.hash == None
    requires Effect(env, t, s, {a.pk}) && Valid(s) && s.Keys == {a.pk, b.pk} && s[b.pk] == b
    requires s[a.pk] == Hashed(env, a, digest, a.id) && IsLookup(s, (a.kb, digest), Some(a.pk))
    requires env.digest(b.pk) == Some(digest)
    ensures Effect(env, t, u, {a.pk, b.pk}) && Valid(u) && u.Keys == {a.pk, b.pk}
    ensures u[a.pk] == s[a.pk] && u[b.pk].duplicateOf == Some(a.id)
  {
    hide Effect, Valid, IsLookup;
    u := s[b.pk := Hashed(env, b, digest, a.id)];
    HashingIsEffect(env, s, b.pk, digest, Some(a.pk));
    EffectsCompose(env, t, s, u, {a.pk}, {b.pk});
    assert {a.pk} + {b.pk} == {a.pk, b.pk};
    EffectIsValid(env, t, u, {a.pk, b.pk});
  }

  lemma FirstHashed(env: Env, t: Table, a: Document, b: Document, digest: string) returns (s: Table)
    requires a.pk != b.pk && t == map[a.pk := a, b.pk := b] && Valid(t) && a.hash == b.hash == None && a.kb == b.kb
    requires env.digest(a.pk) == Some(digest)
    ensures Effect(env, t, s, {a.pk}) && Valid(s) && s.Keys == {a.pk, b.pk} && s[b.pk] == b
    ensures s[a.pk] == Hashed(env, a, digest, a.id) && IsLookup(s, (a.kb, digest), Some(a.pk))
  {
    assert NoCanonical(t, (a.kb, digest));
    s := t[a.pk := Hashed(env, a, digest, a.id)];
    hide Effect, Valid;
    HashingIsEffect(env, t, a.pk, digest, None);
    HashingKeepsValid(env, t, a.pk, digest, None);
  }

  lemma EffectIsValid(env: Env, t: Table, u: Table, S: set<int>)
    requires Effect(env, t, u, S)
    ensures Valid(u)
  {
  }

  // ----- whole runs

  /** One committed change of the table. */
  datatype Event =
    | Upload(pk: int, id: string, kb: int, fileName: string, digest: string, lineage: Option<string>)
    | Batch(scanned: set<int>)

  ghost predicate Step(env: Env, t: Table, u: Table, e: Event) {
    match e
    case Upload(pk, id, kb, fileName, digest, lineage) =>
      if NoCanonical(t, (kb, digest)) then
        Unused(t, pk, id) && u == t[pk := Fresh(env, pk, id, kb, fileName, digest, lineage)]
      else u == t
    case Batch(scanned) => Effect(env, t, u, scanned)
  }

  /** `tables[i + 1]` is the table after event `i`; the first one is valid, for instance without any hash. */
  ghost predicate Run(env: Env, tables: seq<Table>, events: seq<Event>) {
    && |tables| == |events| + 1 && Valid(tables[0])
    && forall i | 0 <= i < |events| :: Step(env, tables[i], tables[i + 1], events[i])
  }

  /** Documents stored before hashes existed form a valid table. */
  lemma UnhashedIsValid(t: Table)
    requires Identified(t) && forall x | x in t :: t[x].hash == None && t[x].duplicateOf == None
    ensures Valid(t)
  {
  }

  lemma {:induction false} EveryRunValid(env: Env, tables: seq<Table>, events: seq<Event>, i: nat)
    requires Run(env, tables, events) && i < |tables|
    ensures Valid(tables[i])
  {
    if i > 0 {
      EveryRunValid(env, tables, events, i - 1);
      var e := events[i - 1];
      assert Step(env, tables[i - 1], tables[i], e);
      if e.Upload? && NoCanonical(tables[i - 1], (e.kb, e.digest)) {
        UploadKeepsValid(env, tables[i - 1], e.pk, e.id, e.kb, e.fileName, e.digest, e.lineage);
      }
    }
  }

  /** Once a document has its hash its row never changes again: a canonical document stays canonical and a duplicate
      keeps pointing to the same one. */
  lemma {:induction false} HashedForGood(env: Env, tables: seq<Table>, events: seq<Event>, i: nat, j: nat, x: int)
    requires Run(env, tables, events) && i <= j < |tables| && x in tables[i] && tables[i][x].hash.Some?
    ensures x in tables[j] && tables[j][x] == tables[i][x]
    decreases j
  {
    hide Valid, Fresh, GotHash, NoCanonical;
    if i < j {
      HashedForGood(env, tables, events, i, j - 1, x);
      var e := events[j - 1];
      assert Step(env, tables[j - 1], tables[j], e);
    }
  }

  // ----- the store

  function Unhashed(t: Table, after: int): set<int> {
    set x | x in t && x > after && t[x].hash == None
  }

  function UpTo(s: set<int>, last: int): set<int> {
    set x | x in s && x <= last
  }

  /** The documents whose raw file is gone. */
  function Missing(env: Env, s: set<int>): set<int> {
    set x | x in s && env.digest(x) == None
  }

  /** The document whose identifier and key the loop goes on with. */
  function Choice(found: Option<int>, x: int): int {
    if found.Some? then found.value else x
  }

  /** One turn of the batch loop: `found` is what the memo or the database answers for the document `x`. */
  lemma BatchTurn(env: Env, t: Table, u: Table, v: Table, S: set<int>, x: int, digest: string, found: Option<int>,
                  c: int)
    requires Effect(env, t, u, S) && x in t && t[x].hash == None && env.digest(x) == Some(digest)
             && forall y | y in S :: y < x
    requires x in u && IsLookup(u, (u[x].kb, digest), found)
    requires c == Choice(found, x) && c in u && v == u[x := Hashed(env, u[x], digest, u[c].id)]
    ensures Effect(env, t, v, S + {x})
  {
    hide Effect, Valid, IsLookup, IsCanonical, Hashed;
    StillAsBefore(env, t, u, S, x);
    HashingIsEffect(env, u, x, digest, found);
    EffectsCompose(env, t, u, v, S, {x});
  }

  /** The memo agrees with the database: it holds what the lookup would return. */
  ghost predicate Agrees(t: Table, memo: map<HashKey, int>) {
    forall k | k in memo :: memo[k] in t && IsLookup(t, k, Some(memo[k]))
  }

  lemma MemoStillAgrees(env: Env, t: Table, memo: map<HashKey, int>, x: int, digest: string, found: Option<int>)
    requires Valid(t) && Agrees(t, memo) && x in t && t[x].hash == None
    requires var k := (t[x].kb, digest); IsLookup(t, k, found) && (k in memo ==> found == Some(memo[k]))
    ensures var u := t[x := Hashed(env, t[x], digest, t[Choice(found, x)].id)];
            Agrees(u, if found == None then memo[(t[x].kb, digest) := x] else memo)
  {
    var k, c := (t[x].kb, digest), Choice(found, x);
    var u := t[x := Hashed(env, t[x], digest, t[c].id)];
    HashingKeepsValid(env, t, x, digest, found);
    hide Valid;
    forall j | j in memo && j != k ensures IsLookup(u, j, Some(memo[j])) {
      assert IsLookup(t, j, Some(memo[j]));
    }
    hide IsLookup, IsCanonical;
  }

  lemma BatchBegins(env: Env, t: Table, pks: seq<int>)
    requires Valid(t)
    ensures Effect(env, t, t, {}) && Agrees(t, map[]) && Missing(env, {}) == {}
    ensures Elems(pks[..0]) == {} && (pks != [] ==> pks[|pks| - 1] in Elems(pks))
  {
    NoEffect(env, t, {});
  }

  lemma BatchSkip(env: Env, t: Table, u: Table, S: set<int>, x: int)
    requires Effect(env, t, u, S) && x in t && t[x].hash == None && env.digest(x) == None
    ensures Effect(env, t, u, S + {x})
  {
    hide Valid, Chosen;
    forall y | y in S + {x} && env.digest(y).Some?
      ensures GotHash(env, t, u, S + {x}, y)
    {
      assert y in S;
      assert GotHash(env, t, u, S, y);
      var c :| Chosen(env, t, u, S, y, env.digest(y).value, c);
      SkipKeepsChoice(env, t, u, S, x, y, env.digest(y).value, c);
    }
  }

  lemma SkipKeepsChoice(env: Env, t: Table, u: Table, S: set<int>, x: int, y: int, digest: string, c: int)
    requires y in t && y in u && Chosen(env, t, u, S, y, digest, c)
    requires x in t && x in u && t[x].hash == None && (x in S || u[x] == t[x]) && (x in S ==> S + {x} == S)
    ensures Chosen(env, t, u, S + {x}, y, digest, c)
  {
    hide NoCanonical, Hashed;
  }

  lemma StillAsBefore(env: Env, t: Table, u: Table, S: set<int>, x: int)
    requires Effect(env, t, u, S) && x in t && x !in S
    ensures x in u && u[x] == t[x] && Valid(u)
  {
    hide Valid, Chosen;
  }

  /** During a run the unhashed documents after the last key are still all there. */
  lemma RestIsLeft(env: Env, t: Table, u: Table, after: int)
    requires after >= 0 && Effect(env, t, u, UpTo(Unhashed(t, 0), after))
    ensures Unhashed(u, after) == Unhashed(t, 0) - UpTo(Unhashed(t, 0), after) && Valid(u)
  {
    hide Valid, Chosen;
    forall x | x in t && x > after ensures u[x] == t[x] {
      StillAsBefore(env, t, u, UpTo(Unhashed(t, 0), after), x);
    }
  }

  lemma NothingYet(env: Env, t: Table)
    requires Valid(t)
    ensures UpTo(Unhashed(t, 0), 0) == {} == Missing(env, {}) && Effect(env, t, t, {})
  {
    NoEffect(env, t, {});
  }

  lemma UpToGrows(all: set<int>, after: int, last: int)
    requires after <= last
    ensures UpTo(all, after) <= UpTo(all, last) <= all && UpTo(all - UpTo(all, after), after) == {}
    ensures all - UpTo(all, after) == {} ==> UpTo(all, after) == all
    ensures last in UpTo(all - UpTo(all, after), last) ==> last in UpTo(all, last) && last in all - UpTo(all, after)
  {
    if all - UpTo(all, after) == {} {
      forall x | x in all ensures x in UpTo(all, after) {
        assert x !in all - UpTo(all, after);
      }
    }
  }

  lemma BatchesMeet(env: Env, t: Table, u: Table, v: Table, after: int, last: int)
    requires 0 <= after <= last && Effect(env, t, u, UpTo(Unhashed(t, 0), after))
    requires Effect(env, u, v, UpTo(Unhashed(u, after), last))
    ensures Effect(env, t, v, UpTo(Unhashed(t, 0), last))
    ensures |Missing(env, UpTo(Unhashed(t, 0), last))|
            == |Missing(env, UpTo(Unhashed(t, 0), after))| + |Missing(env, UpTo(Unhashed(u, after), last))|
  {
    var all := Unhashed(t, 0);
    RestIsLeft(env, t, u, after);
    hide Effect;
    var S, R := UpTo(all, after), UpTo(Unhashed(u, after), last);
    assert UpTo(all, last) == S + R;
    EffectsCompose(env, t, u, v, S, R);
    assert Missing(env, S + R) == Missing(env, S) + Missing(env, R) && Missing(env, S) !! Missing(env, R);
  }

  class DocumentStore {
    var documents: Table

    constructor (legacy: Table)
      requires Identified(legacy) && forall x | x in legacy :: legacy[x].hash == None && legacy[x].duplicateOf == None
      ensures documents == legacy && Valid(documents)
    {
      documents := legacy;
    }

    method FindCanonical(k: HashKey) returns (r: Option<int>)
      ensures IsLookup(documents, k, r) && (r.Some? ==> r.value in documents)
    {
      var candidates := set x | x in documents && IsCanonical(documents[x], k);
      assert forall x | x in documents && IsCanonical(documents[x], k) :: x in candidates;
      if candidates == {} {
        r := None;
      } else {
        var least := Least(candidates);
        r := Some(least);
      }
    }

    /** Returns the key of the document the caller is shown: the canonical one if the content is known, else the new
        one. */
    method Upload(env: Env, pk: int, id: string, kb: int, fileName: string, digest: string, lineage: Option<string>)
      returns (shown: int)
      requires Valid(documents) && Unused(documents, pk, id)
      modifies this
      ensures Valid(documents)
              && Step(env, old(documents), documents, Event.Upload(pk, id, kb, fileName, digest, lineage))
      ensures IsLookup(documents, (kb, digest), Some(shown))
      ensures shown == pk <==> NoCanonical(old(documents), (kb, digest))
      ensures shown != pk ==> documents == old(documents)
      ensures shown == pk ==>
                documents == old(documents)[pk := Document(pk, id, kb, fileName, Some(env.normalize(fileName)),
                                                           Some(digest), None,
                                                           if lineage.Some? then lineage.value else id)]
    {
      hide Valid, Unused;
      var canonical := FindCanonical((kb, digest));
      if canonical.Some? {
        shown := canonical.value;
        NotUnused(documents, pk, id, shown);
      } else {
        UploadKeepsValid(env, documents, pk, id, kb, fileName, digest, lineage);
        documents := documents[pk := Fresh(env, pk, id, kb, fileName, digest, lineage)];
        shown := pk;
      }
    }

    method Delete(x: int)
      requires x in documents
      modifies this
      ensures documents == old(documents) - {x}
    {
      documents := documents - {x};
    }

    /** `list_unhashed_documents`: by key, starting after `after`, at most `limit`. */
    method ListUnhashed(after: int, limit: nat) returns (pks: seq<int>)
      ensures |pks| <= limit && forall i, j | 0 <= i < j < |pks| :: pks[i] < pks[j]
      ensures Elems(pks) == UpTo(Unhashed(documents, after), if pks == [] then after else pks[|pks| - 1])
      ensures |pks| < limit ==> Elems(pks) == Unhashed(documents, after)
    {
      var all := Unhashed(documents, after);
      var left := all;
      pks := [];
      while left != {} && |pks| < limit
        invariant left <= all && |pks| <= limit && forall i, j | 0 <= i < j < |pks| :: pks[i] < pks[j]
        invariant Elems(pks) == all - left
        invariant forall x, i | x in left && 0 <= i < |pks| :: pks[i] < x
        decreases left
      {
        var x := Least(left);
        left := left - {x};
        TakeLast(pks, x);
        pks := pks + [x];
      }
    }

    /** The memo first, then the database: either way the database's answer. */
    method Answer(memo: map<HashKey, int>, k: HashKey) returns (r: Option<int>)
      requires Agrees(documents, memo)
      ensures IsLookup(documents, k, r) && (r.Some? ==> r.value in documents) && (k in memo ==> r == Some(memo[k]))
    {
      if k in memo {
        r := Some(memo[k]);
      } else {
        r := FindCanonical(k);
      }
    }

    /** One document of a batch; `before` is the table the batch began with and `scanned` what it has gone through. */
    method HashDocument(env: Env, x: int, digest: string, memo: map<HashKey, int>, ghost before: Table,
                        ghost scanned: set<int>)
      returns (updated: map<HashKey, int>)
      requires Effect(env, before, documents, scanned) && Agrees(documents, memo) && env.digest(x) == Some(digest)
      requires x in before && before[x].hash == None && forall y | y in scanned :: y < x
      modifies this
      ensures Effect(env, before, documents, scanned + {x}) && Agrees(documents, updated)
    {
      hide Effect, Valid, IsLookup, Hashed, Chosen, IsCanonical, NoCanonical, Agrees;
      StillAsBefore(env, before, documents, scanned, x);
      var k := (documents[x].kb, digest);
      var found := Answer(memo, k);
      MemoStillAgrees(env, documents, memo, x, digest, found);
      var canonical := Choice(found, x);
      updated := if found == None then memo[k := x] else memo;
      ghost var now := documents;
      documents := documents[x := Hashed(env, documents[x], digest, documents[canonical].id)];
      BatchTurn(env, before, now, documents, scanned, x, digest, found, canonical);
    }

    method BackfillBatch(env: Env, after: int, limit: nat) returns (count: nat, last: int, failed: nat)
      requires Valid(documents)
      modifies this
      ensures last >= after
      ensures var scanned := UpTo(Unhashed(old(documents), after), last);
              && Effect(env, old(documents), documents, scanned)
              && count == |scanned| <= limit && failed == |Missing(env, scanned)|
              && (count < limit ==> scanned == Unhashed(old(documents), after))
              && (if count == 0 then last == after else last in scanned)
    {
      hide Effect, Valid, IsLookup, Missing, Elems, Agrees;
      var pks := ListUnhashed(after, limit);
      var memo: map<HashKey, int> := map[];
      failed := 0;
      ghost var before := documents;
      BatchBegins(env, before, pks);
      for i := 0 to |pks|
        invariant |Elems(pks[..i])| == i
        invariant Effect(env, before, documents, Elems(pks[..i]))
        invariant failed == |Missing(env, Elems(pks[..i]))|
        invariant Agrees(documents, memo)
      {
        var x := pks[i];
        ElemsOneMore(pks, i);
        var digest := env.digest(x);
        if digest == None {
          BatchSkip(env, before, documents, Elems(pks[..i]), x);
          failed := failed + 1;
        } else {
          memo := HashDocument(env, x, digest.value, memo, before, Elems(pks[..i]));
        }
        MissingOneMore(env, Elems(pks[..i]), x);
      }
      assert pks[..|pks|] == pks;
      count := |pks|;
      last := if pks == [] then after else pks[|pks| - 1];
    }

    /** The whole backfill: whatever the batch size, every document without a hash whose file exists is hashed. */
    method RunBackfill(env: Env, batchSize: nat) returns (exitCode: int)
      requires Valid(documents)
      modifies this
      ensures var all := if batchSize == 0 then {} else Unhashed(old(documents), 0);
              && Effect(env, old(documents), documents, all)
              && exitCode == (if Missing(env, all) == {} then 0 else 1)
    {
      hide Effect, Valid, Missing, Unhashed, UpTo;
      var after, failed: nat := 0, 0;
      ghost var before := documents;
      ghost var all := Unhashed(before, 0);
      NothingYet(env, before);
      while true
        invariant after >= 0 && Effect(env, before, documents, UpTo(all, after)) && Valid(documents)
        invariant Unhashed(documents, after) == all - UpTo(all, after)
        invariant failed == |Missing(env, UpTo(all, after))|
        invariant batchSize == 0 ==> after == 0
        decreases all - UpTo(all, after)
      {
        ghost var now := documents;
        var count, last, batchFailed := BackfillBatch(env, after, batchSize);
        BatchesMeet(env, before, now, documents, after, last);
        RestIsLeft(env, before, documents, last);
        UpToGrows(all, after, last);
        failed := failed + batchFailed;
        after := last;
        if count == 0 {
          break;
        }
      }
      exitCode := if failed > 0 then 1 else 0;
    }
  }

  lemma TakeLast(s: seq<int>, x: int)
    ensures Elems(s + [x]) == Elems(s) + {x}
  {
    assert (s + [x])[|s|] == x;
    forall y ensures y in Elems(s + [x]) <==> y in Elems(s) + {x} {
    }
  }

  lemma ElemsOneMore(s: seq<int>, i: nat)
    requires i < |s| && forall j, k | 0 <= j < k < |s| :: s[j] < s[k]
    ensures Elems(s[..i + 1]) == Elems(s[..i]) + {s[i]}
    ensures s[i] in Elems(s) && s[i] !in Elems(s[..i]) && forall y | y in Elems(s[..i]) :: y < s[i]
  {
    TakeLast(s[..i], s[i]);
    assert s[..i + 1] == s[..i] + [s[i]];
  }

  lemma MissingOneMore(env: Env, s: set<int>, x: int)
    requires x !in s
    ensures |Missing(env, s + {x})| == |Missing(env, s)| + if env.digest(x) == None then 1 else 0
  {
    assert Missing(env, s + {x}) == Missing(env, s) + if env.digest(x) == None then {x} else {};
  }

  method Least(s: set<int>) returns (m: int)
    requires s != {}
    ensures m in s && forall x | x in s :: m <= x
  {
    LeastExists(s);
    m :| m in s && forall x | x in s :: m <= x;
  }

  lemma {:induction false} LeastExists(s: set<int>)
    requires s != {}
    ensures exists m :: m in s && forall x | x in s :: m <= x
    decreases s
  {
    Inhabited(s);
    var y :| y in s;
    if z :| z in s && z < y {
      assert z in s - {y};
      LeastExists(s - {y});
      var m :| m in s - {y} && forall x | x in s - {y} :: m <= x;
      forall x | x in s ensures m <= x {
        assert x == y || x in s - {y};
      }
    }
  }
}
