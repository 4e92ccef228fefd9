/** Restoring a logical backup into an empty PostgreSQL target. */
module Restore {
  import opened Options
  import opened Order
  import opened Digest
  import opened Numerals
  import opened Json
  import opened CanonicalJson
  import opened Blobs
  import opened BlobOrder
  import opened Manifests
  import opened Reach
  import opened Backup

  type Objects = map<string, Bytes>

  /** One row of the state table. */
  datatype Row = Row(revision: nat, state: Json)

  type Rows = map<string, Row>

  /** What the database reads back, inside the transaction, for a row that was inserted. */
  type Database = Row -> Option<Row>

  /** Whatever is read back is JSON. */
  ghost predicate ReadsJson(database: Database) {
    forall x: Row :: WellFormed(x.state) && database(x).Some? ==> WellFormed(database(x).value.state)
  }

  /** `decodeState`: the row's revision is written into a state that has none, and must match otherwise. */
  function Decoded(schema: Schema, row: Row): Option<Json> {
    var v := SetRevision(row.state, row.revision);
    if v.Obj? && row.revision <= MAX_SAFE_INTEGER && Revision(v) == Num(Decimal(row.revision)) && ValidState(schema, v) then Some(v)
    else None
  }

  ghost predicate Resolves(b: StoredBlob, objects: Objects) {
    b.key in objects && DigestText(objects[b.key]) == b.digest && |objects[b.key]| == b.size
  }

  ghost predicate AllResolve(refs: seq<Reference>, objects: Objects) {
    forall r :: r in refs ==> Resolves(r.blob, objects)
  }

  ghost predicate RowResolves(schema: Schema, row: Row, objects: Objects) {
    Decoded(schema, row).Some? ==>
      && Collect(Decoded(schema, row).value, ROOT).Some?
      && AllResolve(Collect(Decoded(schema, row).value, ROOT).value, objects)
  }

  /** No readable state in the table refers to an object that is missing or different. */
  ghost predicate NoDangling(schema: Schema, rows: Rows, objects: Objects) {
    forall o :: o in rows ==> RowResolves(schema, rows[o], objects)
  }

  ghost predicate Extends(after: Objects, before: Objects) {
    forall k :: k in before ==> k in after && after[k] == before[k]
  }

  // ---------------------------------------------------------------- storing the objects

  /**
   The target's answer to a `put`: the blob it reports, if any, and the objects that appeared. Objects
   that were there before are not disturbed.
   */
  datatype PutReply = PutReply(blob: Option<StoredBlob>, added: Objects)

  function Stored(objects: Objects, replies: seq<PutReply>): Objects {
    if replies == [] then objects
    else replies[|replies| - 1].added + Stored(objects, replies[..|replies| - 1])
  }

  /** The answer names a valid blob with the object's digest and size, which then reads back. */
  ghost predicate GoodReply(reply: PutReply, o: ManifestObject, store: Objects) {
    && reply.blob.Some?
    && var b := reply.blob.value;
      && ValidStored(b) && b.digest == o.blob.digest && b.size == o.blob.size
      && Resolves(b, store)
  }

  ghost predicate GoodReplies(objects: Objects, replies: seq<PutReply>, objs: seq<ManifestObject>, n: nat)
    requires n <= |objs|
  {
    && n <= |replies|
    && forall i :: 0 <= i < n ==> GoodReply(replies[i], objs[i], Stored(objects, replies[..i + 1]))
  }

  lemma GoodRepliesStep(objects: Objects, replies: seq<PutReply>, objs: seq<ManifestObject>, n: nat)
    requires n < |objs|
    ensures GoodReplies(objects, replies, objs, n + 1) <==>
      && GoodReplies(objects, replies, objs, n)
      && n < |replies| && GoodReply(replies[n], objs[n], Stored(objects, replies[..n + 1]))
    ensures GoodReplies(objects, replies, objs, |objs|) ==> GoodReplies(objects, replies, objs, n + 1)
  {
    hide GoodReply, Stored;
  }

  lemma {:induction false} StoredExtends(objects: Objects, replies: seq<PutReply>, n: nat)
    requires n <= |replies|
    ensures Extends(Stored(objects, replies), Stored(objects, replies[..n]))
    ensures Extends(Stored(objects, replies), objects)
    decreases |replies|
  {
    if replies != [] {
      var front := replies[..|replies| - 1];
      StoredExtends(objects, front, if n < |replies| then n else n - 1);
      assert if n < |replies| then replies[..n] == front[..n] else replies[..n] == replies;
    }
  }

  /** The key map after `n` objects. */
  function KeyMapOf(replies: seq<PutReply>, objs: seq<ManifestObject>, n: nat): (m: KeyMap)
    requires n <= |objs| && n <= |replies|
    requires forall i :: 0 <= i < n ==> replies[i].blob.Some?
  {
    if n == 0 then map[] else KeyMapOf(replies, objs, n - 1)[objs[n - 1].blob.key := replies[n - 1].blob.value]
  }

  lemma {:induction false} KeyMapSpec(replies: seq<PutReply>, objs: seq<ManifestObject>, n: nat)
    requires n <= |objs| && n <= |replies| && DistinctKeys(objs, ObjectKey)
    requires forall i :: 0 <= i < n ==> replies[i].blob.Some?
    ensures
      var m := KeyMapOf(replies, objs, n);
      && (forall i :: 0 <= i < n ==> objs[i].blob.key in m && m[objs[i].blob.key] == replies[i].blob.value)
      && (forall k :: k in m ==> exists i :: 0 <= i < n && objs[i].blob.key == k)
  {
    if n > 0 {
      KeyMapSpec(replies, objs, n - 1);
      forall i | 0 <= i < n - 1
        ensures objs[i].blob.key != objs[n - 1].blob.key
      {
        assert ObjectKey(objs[i]) != ObjectKey(objs[n - 1]);
      }
    }
  }

  /** What is known of a key map once all objects are stored. */
  ghost predicate Mapped(m: KeyMap, o: ManifestObject, store: Objects, archive: Objects) {
    && o.blob.key in m
    && ValidStored(m[o.blob.key])
    && m[o.blob.key].digest == o.blob.digest && m[o.blob.key].size == o.blob.size
    && Resolves(m[o.blob.key], store)
    && o.archivePath in archive && store[m[o.blob.key].key] == archive[o.archivePath]
  }

  ghost predicate AllMappedObjects(m: KeyMap, objs: seq<ManifestObject>, store: Objects, archive: Objects) {
    ValidMap(m) && forall i :: 0 <= i < |objs| ==> Mapped(m, objs[i], store, archive)
  }

  lemma AllMappedOnceStored(objects: Objects, replies: seq<PutReply>, objs: seq<ManifestObject>, archive: Objects)
    requires DistinctKeys(objs, ObjectKey) && Archived(objs, archive)
    requires GoodReplies(objects, replies, objs, |objs|)
    ensures
      AllMappedObjects(KeyMapOf(replies, objs, |objs|), objs, Stored(objects, replies[..|objs|]), archive)
  {
    hide Stored, ValidStored, DigestText, DistinctKeys;
    var m, store := KeyMapOf(replies, objs, |objs|), Stored(objects, replies[..|objs|]);
    KeyMapSpec(replies, objs, |objs|);
    forall i | 0 <= i < |objs|
      ensures Mapped(m, objs[i], store, archive)
    {
      var all := replies[..|objs|];
      assert all[..i + 1] == replies[..i + 1];
      StoredExtends(objects, all, i + 1);
      assert GoodReply(replies[i], objs[i], Stored(objects, replies[..i + 1]));
      assert ArchivedObject(objs[i], archive);
      DigestInjective(store[replies[i].blob.value.key], archive[objs[i].archivePath]);
    }
    forall k | k in m
      ensures ValidStored(m[k])
    {
      var i :| 0 <= i < |objs| && objs[i].blob.key == k;
      assert Mapped(m, objs[i], store, archive);
    }
  }

  // ---------------------------------------------------------------- rewriting a validated state

  /** Each reference of a consistent, listed state has its object among the listed ones. */
  lemma ReferenceIsListed(objs: seq<ManifestObject>, refs: seq<Reference>, r: Reference) returns (i: nat)
    requires ListsAll(objs, refs) && Consistent(refs) && r in refs
    ensures i < |objs| && objs[i].blob == r.blob
  {
    WithKeySpec(refs, r.blob.key);
    assert r in WithKey(refs, r.blob.key);
    assert IsListed(objs, r.blob.key);
    i :| 0 <= i < |objs| && objs[i].blob.key == r.blob.key;
    assert Lists(objs[i], refs);
    var first := WithKey(refs, r.blob.key)[0];
    assert first in WithKey(refs, r.blob.key) && first in refs;
  }

  /** After validation and the object loop, rewriting never meets an unmapped key, and keeps contents. */
  lemma ValidatedStateRewrites(state: Json, objs: seq<ManifestObject>, m: KeyMap, store: Objects, archive: Objects)
    requires Collect(state, ROOT).Some? && Consistent(Collect(state, ROOT).value)
    requires ListsAll(objs, Collect(state, ROOT).value) && AllMappedObjects(m, objs, store, archive)
    ensures Rewrite(state, m).Some?
    ensures KeepsContent(Collect(state, ROOT).value, m)
    ensures Blanked(Rewrite(state, m).value) == Blanked(state)
    ensures Collect(Rewrite(state, m).value, ROOT) == Some(RenamedAll(Collect(state, ROOT).value, m))
  {
    hide ListsAll, Consistent, Collect, Rewrite, Blanked, ValidMap, Resolves, ValidStored;
    var refs := Collect(state, ROOT).value;
    forall r | r in refs
      ensures r.blob.key in m && m[r.blob.key].digest == r.blob.digest && m[r.blob.key].size == r.blob.size
    {
      var i := ReferenceIsListed(objs, refs, r);
      assert Mapped(m, objs[i], store, archive);
    }
    RewriteSucceedsIff(state, m, ROOT);
    RewriteKeepsRest(state, m, ROOT);
    CollectRewritten(state, m, ROOT);
  }

  // ---------------------------------------------------------------- well-formedness is kept

  lemma {:induction false} RewriteWellFormed(v: Json, m: KeyMap)
    requires WellFormed(v) && Rewrite(v, m).Some?
    ensures WellFormed(Rewrite(v, m).value)
    decreases v, 1
  {
    hide HasBlobShape, ValidBlob, BlobOf;
    match v
    case Arr(items) => RewriteItemsWellFormed(items, m);
    case Obj(fields) =>
      if HasBlobShape(fields) {
        SetBlobWellFormed(fields, m[BlobOf(fields).key]);
      } else {
        RewriteFieldsWellFormed(fields, m);
      }
    case _ =>
  }

  lemma SetBlobWellFormed(fields: seq<Field>, b: StoredBlob)
    requires WellFormed(Obj(fields))
    ensures WellFormed(Obj(SetBlob(fields, b)))
  {
    assert WellFormed(Num(Decimal(b.size)));
  }

  lemma {:induction false} RewriteItemsWellFormed(items: seq<Json>, m: KeyMap)
    requires RewriteItems(items, m).Some?
    requires forall i :: 0 <= i < |items| ==> WellFormed(items[i])
    ensures forall i :: 0 <= i < |RewriteItems(items, m).value| ==> WellFormed(RewriteItems(items, m).value[i])
    decreases items, 0
  {
    hide WellFormed, Rewrite;
    if items != [] {
      RewriteWellFormed(items[0], m);
      RewriteItemsWellFormed(items[1..], m);
    }
  }

  lemma {:induction false} RewriteFieldsWellFormed(fields: seq<Field>, m: KeyMap)
    requires RewriteFields(fields, m).Some?
    requires forall i :: 0 <= i < |fields| ==> WellFormed(fields[i].value)
    ensures
      var r := RewriteFields(fields, m).value;
      && SameKeys(r, fields)
      && forall i :: 0 <= i < |r| ==> WellFormed(r[i].value)
    decreases fields, 0
  {
    hide WellFormed, Rewrite;
    if fields != [] {
      RewriteWellFormed(fields[0].value, m);
      RewriteFieldsWellFormed(fields[1..], m);
    }
  }

  // ---------------------------------------------------------------- meaning

  lemma BlankedKeepsKeys(v: Json)
    requires v.Obj? && DistinctFields(v.fields)
    ensures Blanked(v).Obj? && DistinctFields(Blanked(v).fields)
  {
    hide HasBlobShape, ValidBlob, BlobOf;
    BlankedFieldsLength(v.fields);
  }

  /** A state equal up to key order to a rewritten one, with its revision written out, means the same. */
  lemma SeededMeansSame(v: Json, restored: Json, state: Json, n: nat)
    requires state.Obj? && restored.Obj? && v.Obj?
    requires WellFormed(v) && WellFormed(restored) && WellFormed(state)
    requires Blanked(restored) == Blanked(state)
    requires Revision(v) == Revision(state)
    requires Equivalent(v, SetRevision(restored, n))
    ensures SameMeaning(v, state)
  {
    hide Blanked, Equivalent, WellFormed, Revision;
    var seeded := SetRevision(restored, n);
    SetRevisionSpec(restored, n);
    DistinctOf(v);
    DistinctOf(seeded);
    BlankedIgnoresKeyOrder(v, seeded);
    BlankedKeepsKeys(v);
    BlankedKeepsKeys(seeded);
    WithoutRevisionIgnoresKeyOrder(Blanked(v), Blanked(seeded));
    BlankedSetRevision(restored, n);
  }

  lemma DistinctOf(v: Json)
    requires WellFormed(v) && v.Obj?
    ensures DistinctFields(v.fields)
  {
  }

  /** The revision of a state is not part of a reference, so blanking keeps it. */
  lemma {:induction false} RevisionOfBlanked(v: Json)
    requires v.Obj?
    ensures Blanked(v).Obj?
    ensures Has(Blanked(v).fields, REVISION) <==> Has(v.fields, REVISION)
    ensures Revision(v).Num? ==> Revision(Blanked(v)) == Revision(v)
    ensures Revision(Blanked(v)).Num? ==> Revision(Blanked(v)) == Revision(v)
  {
    hide HasBlobShape, ValidBlob, BlobOf;
    if HasBlobShape(v.fields) && ValidBlob(v.fields) {
      var b := BlobOf(v.fields).(key := "");
      FindSetBlob(v.fields, b, REVISION);
      RevisionFieldIsPlain();
    } else {
      BlankedFieldsLength(v.fields);
      FindSameKeys(BlankedFields(v.fields), v.fields, REVISION);
      if Has(v.fields, REVISION) {
        BlankedNumber(Get(v.fields, REVISION));
      }
    }
  }

  lemma BlankedNumber(v: Json)
    ensures v.Num? ==> Blanked(v) == v
    ensures Blanked(v).Num? ==> Blanked(v) == v
  {
  }

  lemma RestoredRevision(restored: Json, state: Json)
    requires state.Obj? && restored.Obj? && Blanked(restored) == Blanked(state) && Revision(state).Num?
    ensures Revision(restored) == Revision(state)
    ensures Has(restored.fields, REVISION) <==> Has(state.fields, REVISION)
  {
    hide Blanked, Revision;
    RevisionOfBlanked(restored);
    RevisionOfBlanked(state);
  }

  // ---------------------------------------------------------------- seeding

  /** What `stateWithRevision` inserts for a state. */
  function Inserted(schema: Schema, state: Json): Row
    requires ValidState(schema, SetRevision(state, 0))
  {
    Row(RevisionNumber(schema, SetRevision(state, 0)), SetRevision(state, 0))
  }

  /** The database gave back a row that decodes to the inserted state, up to key order. */
  ghost predicate SeedAccepted(schema: Schema, state: Json, database: Database) {
    && ValidState(schema, SetRevision(state, 0))
    && var back := database(Inserted(schema, state));
      && back.Some?
      && Decoded(schema, back.value).Some?
      && Equivalent(Decoded(schema, back.value).value, SetRevision(state, 0))
  }

  lemma DecodedWellFormed(schema: Schema, row: Row)
    requires WellFormed(row.state) && Decoded(schema, row).Some?
    ensures WellFormed(Decoded(schema, row).value)
  {
    SetRevisionSpec(row.state, row.revision);
  }

  lemma SetRevisionWellFormed(v: Json, n: nat)
    requires WellFormed(v)
    ensures WellFormed(SetRevision(v, n))
  {
    SetRevisionSpec(v, n);
  }

  lemma NumberRevisionAgrees(schema: Schema, v: Json, w: Json)
    requires v.Obj? && ValidState(schema, w) && Equivalent(v, w)
    ensures Revision(v) == Revision(w)
  {
    hide Equivalent, SafeSize;
    EquivalentHas(v.fields, w.fields, REVISION);
    if Has(v.fields, REVISION) {
      LeafEquivalent(Get(v.fields, REVISION), Get(w.fields, REVISION));
    }
  }

  // ---------------------------------------------------------------- what a restore promises

  /** `r` is carried over: a reference at its path, with its digest and size, resolving to the archived bytes. */
  ghost predicate Carried(r: Reference, refs: seq<Reference>, objects: Objects, archive: Objects) {
    exists s :: s in refs && CarriedAs(r, s, objects, archive)
  }

  ghost predicate CarriedAs(r: Reference, s: Reference, objects: Objects, archive: Objects) {
    && s.path == r.path && s.blob.digest == r.blob.digest && s.blob.size == r.blob.size
    && s.blob.key in objects && KeyArchivePath(r.blob.key) in archive
    && objects[s.blob.key] == archive[KeyArchivePath(r.blob.key)]
  }

  /** The row holds the captured state up to blob keys, at its revision, with every reference resolving. */
  ghost predicate Faithful(schema: Schema, m: Manifest, row: Row, objects: Objects, archive: Objects) {
    && Decoded(schema, row).Some?
    && Collect(m.state, ROOT).Some?
    && var v := Decoded(schema, row).value;
      && SameMeaning(v, m.state)
      && Revision(v) == Num(Decimal(m.revision))
      && Collect(v, ROOT).Some?
      && AllResolve(Collect(v, ROOT).value, objects)
      && forall r :: r in Collect(m.state, ROOT).value ==> Carried(r, Collect(v, ROOT).value, objects, archive)
  }

  lemma RenamedResolve(refs: seq<Reference>, objs: seq<ManifestObject>, m: KeyMap, store: Objects, archive: Objects)
    requires Consistent(refs) && ListsAll(objs, refs) && AllMappedObjects(m, objs, store, archive)
    requires forall i :: 0 <= i < |objs| ==> objs[i].archivePath == KeyArchivePath(objs[i].blob.key)
    ensures AllResolve(RenamedAll(refs, m), store)
    ensures forall r :: r in refs ==> Carried(r, RenamedAll(refs, m), store, archive)
  {
    hide ListsAll, Consistent, ValidStored, KeyArchivePath, DigestText;
    var all := RenamedAll(refs, m);
    forall k | 0 <= k < |refs|
      ensures Resolves(all[k].blob, store) && CarriedAs(refs[k], all[k], store, archive)
    {
      var i := ReferenceIsListed(objs, refs, refs[k]);
      assert Mapped(m, objs[i], store, archive);
    }
    forall r | r in refs
      ensures Carried(r, all, store, archive)
    {
      var k :| 0 <= k < |refs| && refs[k] == r;
      assert all[k] in all;
    }
  }

  lemma CarriedBySameRefs(r: Reference, a: seq<Reference>, b: seq<Reference>, objects: Objects, archive: Objects)
    requires Carried(r, a, objects, archive) && forall s :: s in a <==> s in b
    ensures Carried(r, b, objects, archive)
  {
    var s :| s in a && CarriedAs(r, s, objects, archive);
    assert s in b;
  }

  /** A row that decodes to the rewritten state is faithful. */
  lemma SeededRowIsFaithful(
      schema: Schema, m: Manifest, limit: nat, km: KeyMap, row: Row, objects: Objects, archive: Objects)
    requires WellFormed(m.state) && WellFormed(row.state)
    requires ManifestOk(schema, m, limit) && AllMappedObjects(km, m.objects, objects, archive)
    requires Rewrite(m.state, km).Some? && Rewrite(m.state, km).value.Obj?
    requires ValidState(schema, SetRevision(Rewrite(m.state, km).value, 0))
    requires Decoded(schema, row).Some?
    requires Equivalent(Decoded(schema, row).value, SetRevision(Rewrite(m.state, km).value, 0))
    ensures Faithful(schema, m, row, objects, archive)
  {
    hide ListsAll, Consistent, Collect, Rewrite, Blanked, Equivalent, Revision, ValidState, ValidMap, Mapped, Decoded,
      Carried, SameMeaning, Sum, ValidObject, AllResolve, WellFormed;
    var v, restored := Decoded(schema, row).value, Rewrite(m.state, km).value;
    var seeded := SetRevision(restored, 0);
    var refs := Collect(m.state, ROOT).value;
    ValidatedStateRewrites(m.state, m.objects, km, objects, archive);
    RewriteWellFormed(m.state, km);
    DecodedWellFormed(schema, row);
    SetRevisionWellFormed(restored, 0);
    DecodedIsObject(schema, row);
    ValidIsObject(schema, m.state);
    NumberRevisionAgrees(schema, v, seeded);
    RestoredRevision(restored, m.state);
    SetRevisionOfZero(restored, m.revision);
    SeededMeansSame(v, restored, m.state, 0);
    CollectSetRevision(restored, 0, ROOT);
    CollectIgnoresKeyOrder(v, seeded, ROOT);
    ObjectsHaveTheirPaths(m.objects);
    RenamedResolve(refs, m.objects, km, objects, archive);
    ResolveBySameRefs(RenamedAll(refs, km), Collect(v, ROOT).value, objects);
    forall r | r in refs
      ensures Carried(r, Collect(v, ROOT).value, objects, archive)
    {
      CarriedBySameRefs(r, RenamedAll(refs, km), Collect(v, ROOT).value, objects, archive);
    }
  }

  lemma ObjectsHaveTheirPaths(objs: seq<ManifestObject>)
    requires forall i :: 0 <= i < |objs| ==> ValidObject(objs[i])
    ensures forall i :: 0 <= i < |objs| ==> objs[i].archivePath == KeyArchivePath(objs[i].blob.key)
  {
    hide Readable, ValidStored, KeyArchivePath;
  }

  lemma ResolveBySameRefs(a: seq<Reference>, b: seq<Reference>, objects: Objects)
    requires AllResolve(a, objects) && forall s :: s in a <==> s in b
    ensures AllResolve(b, objects)
  {
    hide Resolves;
  }

  lemma DecodedIsObject(schema: Schema, row: Row)
    requires Decoded(schema, row).Some?
    ensures Decoded(schema, row).value.Obj?
  {
  }

  lemma ValidIsObject(schema: Schema, v: Json)
    requires ValidState(schema, v)
    ensures v.Obj?
  {
  }

  lemma SetRevisionOfZero(v: Json, n: nat)
    requires v.Obj? && Revision(v) == Num(Decimal(n))
    ensures Revision(SetRevision(v, 0)) == Num(Decimal(n))
  {
    SetRevisionSpec(v, 0);
    assert Decimal(0) == "0";
  }

  lemma WithoutRevisionWellFormed(v: Json)
    requires WellFormed(v)
    ensures WellFormed(WithoutRevision(v))
  {
    if v.Obj? {
      var rest := DropRevision(v.fields);
      DropRevisionDistinct(v.fields);
      DropRevisionSpec(v.fields);
      forall i | 0 <= i < |rest|
        ensures WellFormed(rest[i].value)
      {
        assert rest[i] in rest && rest[i] in v.fields;
      }
    }
  }

  /** The comparison made after seeding holds of every accepted row. */
  lemma ReadBackMatches(v: Json, restored: Json)
    requires WellFormed(v) && WellFormed(restored) && v.Obj? && restored.Obj?
    requires Equivalent(v, SetRevision(restored, 0))
    ensures CanonicalText(WithoutRevision(v)) == CanonicalText(WithoutRevision(restored))
  {
    hide Equivalent, WellFormed, CanonicalText;
    var seeded := SetRevision(restored, 0);
    SetRevisionSpec(restored, 0);
    DistinctOf(v);
    DistinctOf(seeded);
    WithoutRevisionIgnoresKeyOrder(v, seeded);
    WithoutRevisionWellFormed(v);
    WithoutRevisionWellFormed(seeded);
    CanonicalTextDecides(WithoutRevision(v), WithoutRevision(seeded));
  }

  /** Exactly when a restore succeeds. */
  ghost predicate Restorable(
      schema: Schema, organization: string, m: Manifest, archive: Objects, limit: nat,
      replies: seq<PutReply>, database: Database, objects: Objects, rows: Rows) {
    && ManifestOk(schema, m, limit)
    && m.organization == organization
    && rows == map[]
    && Archived(m.objects, archive)
    && GoodReplies(objects, replies, m.objects, |m.objects|)
    && var restored := Rewrite(m.state, KeyMapOf(replies, m.objects, |m.objects|));
      restored.Some? && ValidState(schema, restored.value) && SeedAccepted(schema, restored.value, database)
  }

  // ---------------------------------------------------------------- the target

  class RestoreTarget {
    var objects: Objects
    var rows: Rows

    constructor (objects: Objects, rows: Rows)
      ensures this.objects == objects && this.rows == rows
    {
      this.objects := objects;
      this.rows := rows;
    }

    /** The object loop of `restoreLogicalBackup`: verify the archive, put, read back. */
    method PutAll(objs: seq<ManifestObject>, archive: Objects, limit: nat, replies: seq<PutReply>)
      returns (r: Option<KeyMap>)
      requires Sum(Sizes(objs)) <= limit && DistinctKeys(objs, ObjectKey)
      modifies this`objects
      ensures Extends(objects, old(objects))
      ensures r.Some? <==> Archived(objs, archive) && GoodReplies(old(objects), replies, objs, |objs|)
      ensures r.Some? ==> r.value == KeyMapOf(replies, objs, |objs|)
      ensures r.Some? ==> AllMappedObjects(r.value, objs, objects, archive)
    {
      var keyMap: KeyMap := map[];
      var total := 0;
      assert keyMap == KeyMapOf(replies, objs, 0);
      ghost var before, sizes := objects, Sizes(objs);
      assert Sum(sizes[..0]) == 0;
      assert Archived(objs[..0], archive);
      hide Sum, Stored, DigestText, DistinctKeys, AllMappedObjects, GoodReplies, GoodReply, Extends, KeyMapOf, Archived, ArchivedObject,
        Sizes;
      StoredStart(before, replies, objs);
      for n := 0 to |objs|
        invariant n <= |replies|
        invariant total == Sum(sizes[..n])
        invariant objects == Stored(before, replies[..n])
        invariant Archived(objs[..n], archive)
        invariant GoodReplies(before, replies, objs, n)
        invariant forall i :: 0 <= i < n ==> replies[i].blob.Some?
        invariant keyMap == KeyMapOf(replies, objs, n)
      {
        SumStep(sizes, n);
        assert sizes[n] == objs[n].blob.size by { SizeAt(objs, n); }
        GoodRepliesStep(before, replies, objs, n);
        StoredExtends(before, replies[..n], n);
        ArchivedStep(objs, n, archive);
        if n == |replies| {
          return None;
        }
        StoredStep(before, replies, n);
        StoredExtends(before, replies[..n + 1], n + 1);
        var good := PutOne(objs[n], archive, limit - total, replies[n]);
        if !good {
          return None;
        }
        GoodReplyHasBlob(replies[n], objs[n], objects);
        KeyMapStep(replies, objs, n);
        total := total + objs[n].blob.size;
        keyMap := keyMap[objs[n].blob.key := replies[n].blob.value];
      }
      StoredExtends(before, replies[..|objs|], |objs|);
      assert objs[..|objs|] == objs;
      AllMappedOnceStored(before, replies, objs, archive);
      return Some(keyMap);
    }

    /** One round: verify the archived bytes, put them, check the answer. A missing archive member stops before the put. */
    method PutOne(o: ManifestObject, archive: Objects, room: nat, reply: PutReply) returns (good: bool)
      requires o.blob.size <= room
      modifies this`objects
      ensures objects == old(objects) || objects == reply.added + old(objects)
      ensures good <==> ArchivedObject(o, archive) && GoodReply(reply, o, reply.added + old(objects))
      ensures good ==> objects == reply.added + old(objects)
    {
      hide DigestText, GoodReply;
      if o.archivePath !in archive {
        return false;
      }
      var bytes := archive[o.archivePath];
      if DigestText(bytes) != o.blob.digest || |bytes| != o.blob.size || |bytes| > room {
        return false;
      }
      objects := reply.added + objects;
      good := CheckReply(reply, o);
    }

    /** The tests on one `put` answer and its read-back. */
    method CheckReply(reply: PutReply, o: ManifestObject) returns (good: bool)
      ensures good <==> GoodReply(reply, o, objects)
    {
      if reply.blob.None? {
        return false;
      }
      var b := reply.blob.value;
      if !ValidStored(b) || b.digest != o.blob.digest || b.size != o.blob.size || b.key !in objects {
        return false;
      }
      return |objects[b.key]| == o.blob.size && DigestText(objects[b.key]) == o.blob.digest;
    }

    /** The seed of `createPostgresStateSeed`: an empty table takes the state, verified inside the transaction. */
    method Seed(schema: Schema, organization: string, state: Json, database: Database) returns (ok: bool)
      requires WellFormed(state) && ReadsJson(database)
      modifies this`rows
      ensures ok <==> old(rows) == map[] && SeedAccepted(schema, state, database)
      ensures !ok ==> rows == old(rows)
      ensures ok ==> rows == map[organization := database(Inserted(schema, state)).value]
    {
      hide Equivalent, ValidState, Decoded, CanonicalText, WellFormed, RevisionNumber;
      var seeded := SetRevision(state, 0);
      if !ValidState(schema, seeded) || rows != map[] {
        return false;
      }
      var before := rows;
      var back := database(Inserted(schema, state));
      if back.None? {
        return false;
      }
      rows := rows[organization := back.value];
      var current := Decoded(schema, rows[organization]);
      if current.None? {
        rows := before;
        return false;
      }
      SetRevisionWellFormed(state, 0);
      assert WellFormed(Inserted(schema, state).state);
      DecodedWellFormed(schema, back.value);
      CanonicalTextDecides(current.value, seeded);
      DecodedIsObject(schema, back.value);
      if Equivalent(current.value, seeded) { NumberRevisionAgrees(schema, current.value, seeded); }
      if Revision(current.value) != Revision(seeded) || CanonicalText(current.value) != CanonicalText(seeded) {
        rows := before;
        return false;
      }
      return true;
    }

    /**
     `restoreLogicalBackup`. It succeeds exactly when the backup validates, the target is empty and
     both stores answer well; the row is then faithful to the captured state. Otherwise the table is
     as it was. Either way no object is lost, and a table without dangling references stays so.
     */
    method RestoreLogicalBackup(
        schema: Schema, organization: string, m: Manifest, archive: Objects, limit: nat,
        replies: seq<PutReply>, database: Database)
      returns (r: Option<KeyMap>)
      requires WellFormed(m.state) && ReadsJson(database)
      modifies this
      ensures r.Some? <==>
        Restorable(schema, organization, m, archive, limit, replies, database, old(objects), old(rows))
      ensures r.Some? ==>
        rows.Keys == {organization} && Faithful(schema, m, rows[organization], objects, archive)
      ensures r.Some? ==> m.organization == organization && OnlyFrom(m.state, organization) && old(rows) == map[]
      ensures r.None? ==> rows == old(rows)
      ensures Extends(objects, old(objects))
      ensures NoDangling(schema, old(rows), old(objects)) ==> NoDangling(schema, rows, objects)
    {
      hide ListsAll, Consistent, Collect, Rewrite, Equivalent, ValidState, Decoded, ValidMap, Mapped, Sum, ValidObject,
        Sizes, DistinctKeys, Archived, GoodReplies, CanonicalText, Revision, KeyMapOf, Faithful, SameMeaning,
        WellFormed, Inserted, NoDangling, SeedAccepted, ReadsJson, OnlyFrom, BlobsAreGood;
      var ok := ValidateManifest(schema, m, limit);
      if !ok || m.organization != organization || rows != map[] {
        StillResolves(schema, rows, old(objects), objects);
        return None;
      }
      ListedAreDistinct(m.objects, Collect(m.state, ROOT).value);
      var stored := PutAll(m.objects, archive, limit, replies);
      StillResolves(schema, rows, old(objects), objects);
      if stored.None? {
        return None;
      }
      ValidatedStateRewrites(m.state, m.objects, stored.value, objects, archive);
      var restored := Rewrite(m.state, stored.value).value;
      if !ValidState(schema, restored) {
        return None;
      }
      RewriteWellFormed(m.state, stored.value);
      ok := Seed(schema, organization, restored, database);
      if !ok {
        return None;
      }
      ValidIsObject(schema, restored);
      AcceptedSeedDecodes(schema, restored, database);
      SeededRowIsFaithful(schema, m, limit, stored.value, rows[organization], objects, archive);
      FaithfulRowResolves(schema, m, rows[organization], objects, archive);
      OneRowResolves(schema, rows, organization, objects);
      var after := Decoded(schema, rows[organization]).value;
      ReadBackMatches(after, restored);
      var same := Revision(after) == Num(Decimal(m.revision))
        && CanonicalText(WithoutRevision(after)) == CanonicalText(WithoutRevision(restored));
      assert same;
      return if same then Some(stored.value) else None;
    }
  }

  lemma SizeAt(objs: seq<ManifestObject>, n: nat)
    requires n < |objs|
    ensures Sizes(objs)[n] == objs[n].blob.size
  {
  }

  lemma ArchivedStep(objs: seq<ManifestObject>, n: nat, archive: Objects)
    requires n < |objs|
    ensures Archived(objs[..n + 1], archive) <==> Archived(objs[..n], archive) && ArchivedObject(objs[n], archive)
    ensures Archived(objs, archive) ==> ArchivedObject(objs[n], archive)
  {
    hide ArchivedObject;
    assert objs[..n + 1] == objs[..n] + [objs[n]];
  }

  lemma GoodReplyHasBlob(reply: PutReply, o: ManifestObject, store: Objects)
    requires GoodReply(reply, o, store)
    ensures reply.blob.Some?
  {
  }

  lemma KeyMapStep(replies: seq<PutReply>, objs: seq<ManifestObject>, n: nat)
    requires n < |objs| && n < |replies|
    requires forall i :: 0 <= i <= n ==> replies[i].blob.Some?
    ensures KeyMapOf(replies, objs, n + 1) == KeyMapOf(replies, objs, n)[objs[n].blob.key := replies[n].blob.value]
  {
  }

  lemma StoredStart(objects: Objects, replies: seq<PutReply>, objs: seq<ManifestObject>)
    ensures Stored(objects, replies[..0]) == objects
    ensures GoodReplies(objects, replies, objs, 0)
  {
  }

  lemma StoredStep(objects: Objects, replies: seq<PutReply>, n: nat)
    requires n < |replies|
    ensures Stored(objects, replies[..n + 1]) == replies[n].added + Stored(objects, replies[..n])
  {
    assert replies[..n + 1][..n] == replies[..n];
  }

  lemma ListedAreDistinct(objs: seq<ManifestObject>, refs: seq<Reference>)
    requires ListsAll(objs, refs)
    ensures DistinctKeys(objs, ObjectKey)
  {
  }

  /** More objects never make a reference dangle. */
  lemma StillResolves(schema: Schema, rows: Rows, before: Objects, after: Objects)
    requires Extends(after, before)
    ensures NoDangling(schema, rows, before) ==> NoDangling(schema, rows, after)
  {
    hide Decoded, Collect, DigestText;
    if NoDangling(schema, rows, before) {
      forall o | o in rows
        ensures RowResolves(schema, rows[o], after)
      {
        assert RowResolves(schema, rows[o], before);
      }
    }
  }

  lemma AcceptedSeedDecodes(schema: Schema, state: Json, database: Database)
    requires WellFormed(state) && ReadsJson(database) && SeedAccepted(schema, state, database)
    ensures
      var back := database(Inserted(schema, state)).value;
      && WellFormed(back.state)
      && Decoded(schema, back).Some? && WellFormed(Decoded(schema, back).value) && Decoded(schema, back).value.Obj?
      && Equivalent(Decoded(schema, back).value, SetRevision(state, 0))
      && ValidState(schema, SetRevision(state, 0))
  {
    hide Decoded, WellFormed, Equivalent, ValidState, RevisionNumber;
    SetRevisionWellFormed(state, 0);
    var back := database(Inserted(schema, state)).value;
    DecodedWellFormed(schema, back);
    DecodedIsObject(schema, back);
  }

  lemma FaithfulRowResolves(schema: Schema, m: Manifest, row: Row, objects: Objects, archive: Objects)
    requires Faithful(schema, m, row, objects, archive)
    ensures RowResolves(schema, row, objects)
    ensures Revision(Decoded(schema, row).value) == Num(Decimal(m.revision))
  {
    hide Decoded, Collect, SameMeaning, Carried;
  }

  lemma OneRowResolves(schema: Schema, rows: Rows, organization: string, objects: Objects)
    requires rows.Keys == {organization} && RowResolves(schema, rows[organization], objects)
    ensures NoDangling(schema, rows, objects)
  {
    hide RowResolves;
  }
}
