/** What every accepted manifest is, in the terms of the nodes of its state and of the entries it lists. */
module ManifestRules {
  import opened Options
  import opened Order
  import opened Digest
  import opened Numerals
  import opened Json
  import opened CanonicalJson
  import opened Blobs
  import opened BlobOrder
  import opened Manifests
  import opened Reach
  import opened Backup

  /** Bounded text without control characters. */
  predicate BoundedText(s: string) {
    |s| <= 4_096 && forall c :: c in s ==> c as int >= 0x20 && c as int != 0x7f
  }

  /** The record's revision, absent for zero, and a safe integer. */
  ghost predicate RevisionIs(v: Json, n: nat) {
    && n <= 9_007_199_254_740_991
    && (FieldIs(v, "metadataRevision", Num(Decimal(n))) || (n == 0 && forall w :: !FieldIs(v, "metadataRevision", w)))
  }

  ghost predicate GoodEntry(o: ManifestObject) {
    && StorageKey(o.blob.key) && IsDigest(o.blob.digest) && o.blob.size <= 104_857_600
    && o.archivePath == "objects/" + DigestText(Utf8(o.blob.key))[7..] + ".bin"
    && BoundedText(o.blob.key) && (exists i :: 0 <= i < |o.blob.key| && !BlankChar(o.blob.key[i]))
    && |o.references| <= 200_000 && forall i :: 0 <= i < |o.references| ==> BoundedText(o.references[i])
  }

  ghost predicate ListedAt(objects: seq<ManifestObject>, r: Reference) {
    exists i :: 0 <= i < |objects| && objects[i].blob == r.blob && r.path in objects[i].references
  }

  /** The manifest lists exactly the blobs of its state, each at exactly its paths. */
  ghost predicate ListsTheState(m: Manifest) {
    && (forall i, j :: 0 <= i < j < |m.objects| ==> m.objects[i].blob.key != m.objects[j].blob.key)
    && (forall r :: ReferredTo(m.state, "state", r) <==> ListedAt(m.objects, r))
  }

  ghost predicate GoodManifest(schema: Schema, m: Manifest, limit: nat) {
    && |m.objects| <= 10_000
    && m.state.Obj? && schema(m.state)
    && OnlyFrom(m.state, m.organization) && BlobsAreGood(m.state) && RevisionIs(m.state, m.revision)
    && (forall i :: 0 <= i < |m.objects| ==> GoodEntry(m.objects[i]))
    && Sum(Sizes(m.objects)) <= limit
    && ListsTheState(m)
  }

  lemma EntryIsGood(o: ManifestObject)
    requires ValidObject(o)
    ensures GoodEntry(o)
  {
    hide SafeKey, StorageKey, IsDigest, DigestText, Utf8;
    StorageKeyIff(o.blob.key);
    assert forall s :: PlainText(s) ==> BoundedText(s);
  }

  lemma RevisionIsSaid(schema: Schema, v: Json, n: nat)
    requires ValidState(schema, v) && Revision(v) == Num(Decimal(n))
    ensures RevisionIs(v, n)
  {
    hide FieldIs, Find, Decimal, Digits, Value;
    if Has(v.fields, REVISION) {
      ValueOfDecimal(n);
      FieldIsIff(v.fields, REVISION, Num(Decimal(n)));
    } else {
      ZeroIsDecimal();
      DecimalInjective(n, 0);
      forall w
        ensures !FieldIs(v, REVISION, w)
      {
        FieldIsIff(v.fields, REVISION, w);
      }
    }
  }

  lemma ZeroIsDecimal()
    ensures Decimal(0) == "0"
  {
  }

  lemma PathListed(objects: seq<ManifestObject>, refs: seq<Reference>, i: nat, path: string)
    requires ListsAll(objects, refs) && Consistent(refs) && i < |objects|
    ensures path in objects[i].references <==> Reference(objects[i].blob, path) in refs
  {
    hide DistinctKeys, SortBy, WithKey;
    var o := objects[i];
    var mine := WithKey(refs, o.blob.key);
    assert Lists(o, refs);
    WithKeySpec(refs, o.blob.key);
    SortByMembers(o.references, Id);
    SortByMembers(PathsOf(mine), Id);
    assert mine[0] in mine;
    if path in o.references {
      assert path in PathsOf(mine);
      var k :| 0 <= k < |mine| && PathsOf(mine)[k] == path;
      assert mine[k] in mine && mine[k].blob == mine[0].blob;
      assert mine[k] == Reference(o.blob, path);
    }
    if Reference(o.blob, path) in refs {
      assert Reference(o.blob, path) in mine;
      var k :| 0 <= k < |mine| && mine[k] == Reference(o.blob, path);
      assert PathsOf(mine)[k] == path && path in PathsOf(mine);
      assert path in SortBy(PathsOf(mine), Id);
    }
  }

  lemma ReferenceListed(objects: seq<ManifestObject>, refs: seq<Reference>, r: Reference)
    requires ListsAll(objects, refs) && Consistent(refs)
    ensures r in refs <==> ListedAt(objects, r)
  {
    hide DistinctKeys, SortBy, WithKey, Lists;
    if r in refs {
      WithKeySpec(refs, r.blob.key);
      assert IsListed(objects, r.blob.key);
      var i :| 0 <= i < |objects| && objects[i].blob.key == r.blob.key;
      ListedBlob(objects, refs, i, r);
      PathListed(objects, refs, i, r.path);
    }
    if ListedAt(objects, r) {
      var i :| 0 <= i < |objects| && objects[i].blob == r.blob && r.path in objects[i].references;
      PathListed(objects, refs, i, r.path);
    }
  }

  lemma ListedBlob(objects: seq<ManifestObject>, refs: seq<Reference>, i: nat, r: Reference)
    requires ListsAll(objects, refs) && Consistent(refs) && i < |objects| && r in refs && objects[i].blob.key == r.blob.key
    ensures objects[i].blob == r.blob
  {
    hide DistinctKeys, SortBy, WithKey;
    var mine := WithKey(refs, objects[i].blob.key);
    assert Lists(objects[i], refs);
    WithKeySpec(refs, objects[i].blob.key);
    assert mine[0] in mine;
  }

  /** Every accepted manifest is good. */
  lemma AcceptedManifest(schema: Schema, m: Manifest, limit: nat)
    requires ManifestOk(schema, m, limit)
    ensures GoodManifest(schema, m, limit)
  {
    hide ListsAll, ValidObject, GoodEntry, Collect, OwnedBy, OnlyFrom, BlobsAreGood, RevisionIs, Sum, ReferredTo, ListedAt, Consistent;
    OwnedByIff(m.state, m.organization);
    CollectIff(m.state, ROOT);
    RevisionIsSaid(schema, m.state, m.revision);
    forall i | 0 <= i < |m.objects|
      ensures GoodEntry(m.objects[i])
    {
      EntryIsGood(m.objects[i]);
    }
    var refs := Collect(m.state, ROOT).value;
    forall r
      ensures ReferredTo(m.state, "state", r) <==> ListedAt(m.objects, r)
    {
      ReferenceListed(m.objects, refs, r);
    }
    KeysDiffer(m.objects, refs);
  }

  lemma KeysDiffer(objects: seq<ManifestObject>, refs: seq<Reference>)
    requires ListsAll(objects, refs)
    ensures forall i, j :: 0 <= i < j < |objects| ==> objects[i].blob.key != objects[j].blob.key
  {
    hide Lists, WithKey;
    forall i, j | 0 <= i < j < |objects|
      ensures objects[i].blob.key != objects[j].blob.key
    {
      assert ObjectKey(objects[i]) != ObjectKey(objects[j]);
    }
  }
}
