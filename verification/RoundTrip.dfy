/** Capture followed by restore: a target that answers honestly takes every readable backup. */
module RoundTrip {
  import opened Options
  import opened Digest
  import opened Numerals
  import opened Json
  import opened CanonicalJson
  import opened Blobs
  import opened BlobOrder
  import opened Manifests
  import opened Backup
  import opened Restore

  /** Rows read back as inserted, up to the order of object keys. */
  ghost predicate HonestDatabase(database: Database) {
    forall x: Row :: WellFormed(x.state) ==> HonestFor(database, x)
  }

  ghost predicate HonestFor(database: Database, x: Row) {
    && database(x).Some?
    && var back := database(x).value;
      back.revision == x.revision && WellFormed(back.state) && Equivalent(back.state, x.state)
  }

  /** The schema does not look at blob keys, key order, or how a zero revision is written. */
  ghost predicate SchemaReadsMeaning(schema: Schema, state: Json) {
    forall v: Json :: v.Obj? && WellFormed(v) && SameMeaning(v, state) ==> schema(v)
  }

  lemma RevisionIsSafe(schema: Schema, v: Json, n: nat)
    requires ValidState(schema, v) && Revision(v) == Num(Decimal(n))
    ensures n <= MAX_SAFE_INTEGER && SafeSize(Decimal(n))
  {
    ValueOfDecimal(n);
    if !Has(v.fields, REVISION) {
      assert Decimal(0) == "0";
      DecimalInjective(n, 0);
    }
  }

  lemma MeaningIsValid(schema: Schema, v: Json, state: Json, n: nat)
    requires v.Obj? && WellFormed(v) && SameMeaning(v, state) && SchemaReadsMeaning(schema, state)
    requires ValidState(schema, state) && Revision(state) == Num(Decimal(n))
    ensures ValidState(schema, v)
  {
    hide Equivalent, Blanked, WellFormed, SafeSize;
    RevisionIsSafe(schema, state, n);
  }

  /** A state rewritten from a valid one is itself valid, before and after its revision is written out. */
  lemma RestoredIsValid(schema: Schema, restored: Json, state: Json, n: nat)
    requires restored.Obj? && WellFormed(restored) && WellFormed(state)
    requires Blanked(restored) == Blanked(state) && SchemaReadsMeaning(schema, state)
    requires ValidState(schema, state) && Revision(state) == Num(Decimal(n))
    ensures ValidState(schema, restored) && ValidState(schema, SetRevision(restored, 0))
    ensures Revision(SetRevision(restored, 0)) == Num(Decimal(n))
    ensures Revision(restored) == Num(Decimal(n))
    ensures WellFormed(SetRevision(restored, 0))
  {
    hide Blanked, Equivalent, WellFormed, ValidState, SchemaReadsMeaning;
    var seeded := SetRevision(restored, 0);
    ValidIsObject(schema, state);
    RestoredRevision(restored, state);
    SetRevisionOfZero(restored, n);
    SetRevisionWellFormed(restored, 0);
    EquivalentReflexive(seeded);
    SeededMeansSame(seeded, restored, state, 0);
    BlankedSetRevision(restored, 0);
    MeaningIsValid(schema, seeded, state, n);
    MeaningIsValid(schema, restored, state, n);
  }

  lemma HasRevisionAfterSet(v: Json, w: Json, n: nat)
    requires v.Obj? && Equivalent(w, SetRevision(v, n))
    ensures w.Obj? && Has(w.fields, REVISION)
  {
    hide Equivalent;
    SetRevisionSpec(v, n);
    var seeded := SetRevision(v, n);
    if !Has(v.fields, REVISION) {
      assert seeded.fields[|v.fields|].key == REVISION;
    }
    EquivalentShape(w, seeded);
    EquivalentHas(w.fields, seeded.fields, REVISION);
  }

  lemma EquivalentShape(v: Json, w: Json)
    requires Equivalent(v, w) && w.Obj?
    ensures v.Obj?
  {
  }

  /** An honest database accepts the seed. */
  lemma HonestDatabaseSeeds(schema: Schema, restored: Json, state: Json, n: nat, database: Database)
    requires restored.Obj? && WellFormed(restored) && WellFormed(state)
    requires Blanked(restored) == Blanked(state) && SchemaReadsMeaning(schema, state)
    requires ValidState(schema, state) && Revision(state) == Num(Decimal(n))
    requires HonestDatabase(database)
    ensures ValidState(schema, restored) && SeedAccepted(schema, restored, database)
  {
    hide Blanked, Equivalent, WellFormed, ValidState, SchemaReadsMeaning, Revision, RevisionNumber;
    RestoredIsValid(schema, restored, state, n);
    var seeded := SetRevision(restored, 0);
    var x := Inserted(schema, restored);
    DecimalInjective(x.revision, n);
    assert HonestFor(database, x);
    var back := database(x).value;
    HasRevisionAfterSet(restored, back.state, 0);
    assert SetRevision(back.state, back.revision) == back.state;
    NumberRevisionAgrees(schema, back.state, seeded);
    ValidIsObject(schema, state);
    SeededMeansSame(back.state, restored, state, 0);
    MeaningIsValid(schema, back.state, state, n);
    RevisionIsSafe(schema, state, n);
  }

  lemma RewriteKeepsObject(v: Json, m: KeyMap)
    requires v.Obj? && Rewrite(v, m).Some?
    ensures Rewrite(v, m).value.Obj?
  {
  }

  // ---------------------------------------------------------------- an honest object store

  /** How a store answers a `put`, given what it holds. */
  type Store = (Objects, Bytes) -> PutReply

  /** The answer names a valid blob of these bytes, under which they are then found. */
  ghost predicate HonestPut(put: Store, objects: Objects, bytes: Bytes) {
    var reply := put(objects, bytes);
    && reply.blob.Some?
    && var b := reply.blob.value;
      && ValidStored(b) && b.digest == DigestText(bytes) && b.size == |bytes|
      && b.key in reply.added + objects && (reply.added + objects)[b.key] == bytes
  }

  ghost predicate HonestStore(put: Store) {
    forall objects: Objects, bytes: Bytes :: |bytes| <= MAX_BACKUP_OBJECT_BYTES ==> HonestPut(put, objects, bytes)
  }

  /** The answers to putting the first `n` archived objects one after the other. */
  function Answers(put: Store, objects: Objects, archive: Objects, objs: seq<ManifestObject>, n: nat): (r: seq<PutReply>)
    requires n <= |objs| && forall i :: 0 <= i < n ==> objs[i].archivePath in archive
    ensures |r| == n
  {
    if n == 0 then []
    else
      var before := Answers(put, objects, archive, objs, n - 1);
      before + [put(Stored(objects, before), archive[objs[n - 1].archivePath])]
  }

  /** An honest store answers the whole loop well. */
  lemma {:induction false} HonestAnswersAreGood(
      put: Store, objects: Objects, archive: Objects, objs: seq<ManifestObject>, n: nat)
    requires HonestStore(put) && Archived(objs, archive) && n <= |objs|
    requires forall i :: 0 <= i < |objs| ==> objs[i].archivePath in archive && objs[i].blob.size <= MAX_BACKUP_OBJECT_BYTES
    ensures GoodReplies(objects, Answers(put, objects, archive, objs, n), objs, n)
  {
    hide ValidStored, DigestText, GoodReplies, HonestPut, GoodReply, Stored;
    if n == 0 {
      NoReplies(objects, objs);
    } else {
      HonestAnswersAreGood(put, objects, archive, objs, n - 1);
      var before := Answers(put, objects, archive, objs, n - 1);
      var bytes := archive[objs[n - 1].archivePath];
      assert ArchivedObject(objs[n - 1], archive);
      assert HonestPut(put, Stored(objects, before), bytes);
      HonestPutIsGood(put, Stored(objects, before), bytes, objs[n - 1]);
      OneMoreReply(objects, before, put(Stored(objects, before), bytes), objs, n);
    }
  }

  lemma NoReplies(objects: Objects, objs: seq<ManifestObject>)
    ensures GoodReplies(objects, [], objs, 0)
  {
  }

  lemma HonestPutIsGood(put: Store, objects: Objects, bytes: Bytes, o: ManifestObject)
    requires HonestPut(put, objects, bytes) && DigestText(bytes) == o.blob.digest && |bytes| == o.blob.size
    ensures GoodReply(put(objects, bytes), o, put(objects, bytes).added + objects)
  {
    hide ValidStored, DigestText;
  }

  lemma OneMoreReply(objects: Objects, before: seq<PutReply>, reply: PutReply, objs: seq<ManifestObject>, n: nat)
    requires 0 < n <= |objs| && |before| == n - 1 && GoodReplies(objects, before, objs, n - 1)
    requires GoodReply(reply, objs[n - 1], reply.added + Stored(objects, before))
    ensures GoodReplies(objects, before + [reply], objs, n)
  {
    hide GoodReply, Stored;
    var all := before + [reply];
    assert all[..n] == all && all[..n - 1] == before && all[n - 1] == reply;
    StoredStep(objects, all, n - 1);
    forall i | 0 <= i < n
      ensures GoodReply(all[i], objs[i], Stored(objects, all[..i + 1]))
    {
      if i < n - 1 { assert all[..i + 1] == before[..i + 1]; }
    }
  }

  lemma ObjectsAreArchived(objs: seq<ManifestObject>, archive: Objects)
    requires Archived(objs, archive) && forall i :: 0 <= i < |objs| ==> ValidObject(objs[i])
    ensures forall i :: 0 <= i < |objs| ==> objs[i].archivePath in archive && objs[i].blob.size <= MAX_BACKUP_OBJECT_BYTES
  {
    hide Readable, ValidStored, DigestText, KeyArchivePath;
    forall i | 0 <= i < |objs|
      ensures objs[i].archivePath in archive && objs[i].blob.size <= MAX_BACKUP_OBJECT_BYTES
    {
      assert ArchivedObject(objs[i], archive) && ValidObject(objs[i]);
    }
  }

  /**
   Every valid manifest with its archive restores into an empty target whose object store and
   database answer honestly.
   */
  lemma HonestTargetRestores(
      schema: Schema, m: Manifest, archive: Objects, limit: nat, put: Store, database: Database, objects: Objects)
    requires WellFormed(m.state) && ManifestOk(schema, m, limit) && Archived(m.objects, archive)
    requires HonestStore(put) && HonestDatabase(database) && SchemaReadsMeaning(schema, m.state)
    ensures forall i :: 0 <= i < |m.objects| ==> m.objects[i].archivePath in archive
    ensures Restorable(
      schema, m.organization, m, archive, limit, Answers(put, objects, archive, m.objects, |m.objects|), database, objects, map[])
  {
    hide ListsAll, Consistent, Collect, ValidState, OwnedBy, Sum, ValidObject, WellFormed, HonestStore, GoodReplies, Restorable,
      Archived, HonestDatabase, SchemaReadsMeaning;
    ObjectsAreArchived(m.objects, archive);
    HonestAnswersAreGood(put, objects, archive, m.objects, |m.objects|);
    GoodRepliesRestore(
      schema, m, archive, limit, Answers(put, objects, archive, m.objects, |m.objects|), database, objects);
  }

  lemma GoodRepliesRestore(
      schema: Schema, m: Manifest, archive: Objects, limit: nat,
      replies: seq<PutReply>, database: Database, objects: Objects)
    requires WellFormed(m.state) && ManifestOk(schema, m, limit) && Archived(m.objects, archive)
    requires GoodReplies(objects, replies, m.objects, |m.objects|)
    requires HonestDatabase(database) && SchemaReadsMeaning(schema, m.state)
    ensures Restorable(schema, m.organization, m, archive, limit, replies, database, objects, map[])
  {
    hide ListsAll, Consistent, Collect, Rewrite, Blanked, ValidState, OwnedBy, Sum, ValidObject, KeyMapOf, WellFormed, SeedAccepted,
      AllMappedObjects, GoodReplies, Archived, HonestDatabase, SchemaReadsMeaning, Stored;
    ListedAreDistinct(m.objects, Collect(m.state, ROOT).value);
    AllMappedOnceStored(objects, replies, m.objects, archive);
    RepliesHaveBlobs(objects, replies, m.objects);
    var km := KeyMapOf(replies, m.objects, |m.objects|);
    var store := Stored(objects, replies[..|m.objects|]);
    ValidatedStateRewrites(m.state, m.objects, km, store, archive);
    RewriteWellFormed(m.state, km);
    ValidIsObject(schema, m.state);
    RewriteKeepsObject(m.state, km);
    HonestDatabaseSeeds(schema, Rewrite(m.state, km).value, m.state, m.revision, database);
  }

  lemma RepliesHaveBlobs(objects: Objects, replies: seq<PutReply>, objs: seq<ManifestObject>)
    requires GoodReplies(objects, replies, objs, |objs|)
    ensures |objs| <= |replies| && forall i :: 0 <= i < |objs| ==> replies[i].blob.Some?
  {
    forall i | 0 <= i < |objs|
      ensures replies[i].blob.Some?
    {
      assert GoodReply(replies[i], objs[i], Stored(objects, replies[..i + 1]));
    }
  }

  /** `s` stands for `r` in the restored state, and resolves there to the bytes `r` had at the source. */
  ghost predicate SameContent(r: Reference, s: Reference, source: Objects, objects: Objects) {
    && s.path == r.path && s.blob.digest == r.blob.digest && s.blob.size == r.blob.size
    && r.blob.key in source && s.blob.key in objects && objects[s.blob.key] == source[r.blob.key]
  }

  /** After capture and restore, each reference resolves to the very bytes it had at the source. */
  lemma RestoredBytesAreSourceBytes(
      schema: Schema, m: Manifest, archive: Objects, source: Objects, row: Row, objects: Objects, r: Reference)
    returns (s: Reference)
    requires Collect(m.state, ROOT).Some? && Consistent(Collect(m.state, ROOT).value)
    requires ListsAll(m.objects, Collect(m.state, ROOT).value)
    requires forall i :: 0 <= i < |m.objects| ==>
      && m.objects[i].archivePath == KeyArchivePath(m.objects[i].blob.key)
      && m.objects[i].blob.key in source && m.objects[i].archivePath in archive
      && archive[m.objects[i].archivePath] == source[m.objects[i].blob.key]
    requires Faithful(schema, m, row, objects, archive)
    requires r in Collect(m.state, ROOT).value
    ensures s in Collect(Decoded(schema, row).value, ROOT).value
    ensures SameContent(r, s, source, objects)
  {
    hide Collect, ListsAll, Consistent, Decoded, KeyArchivePath, SameMeaning, AllResolve;
    var refs := Collect(m.state, ROOT).value;
    var i := ReferenceIsListed(m.objects, refs, r);
    var after := Collect(Decoded(schema, row).value, ROOT).value;
    assert Carried(r, after, objects, archive);
    s :| s in after && CarriedAs(r, s, objects, archive);
  }
}
