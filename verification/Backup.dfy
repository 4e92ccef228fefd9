/** Capturing a logical backup, and reading one back. */
module Backup {
  import opened Options
  import opened Order
  import opened Digest
  import opened Numerals
  import opened Paths
  import opened Json
  import opened CanonicalJson
  import opened Blobs
  import opened BlobOrder
  import opened Manifests
  import opened Reach

  const ROOT := "state"

  // ---------------------------------------------------------------- manifest validation

  predicate ControlChar(c: char) {
    c < ' ' || c == 127 as char
  }

  predicate BlankChar(c: char) {
    var n := c as int;
    || n == 0x20 || n == 0xA0 || n == 0x1680 || 0x2000 <= n <= 0x200A
    || n == 0x2028 || n == 0x2029 || n == 0x202F || n == 0x205F || n == 0x3000 || n == 0xFEFF
  }

  predicate PlainText(s: string) {
    |s| <= MAX_KEY_LENGTH && forall c :: c in s ==> !ControlChar(c)
  }

  /** `nonEmpty` with the key length bound. */
  predicate NonEmpty(s: string) {
    PlainText(s) && exists i :: 0 <= i < |s| && !BlankChar(s[i])
  }

  /** What the reader asks of an entry beyond what the writer puts into it. */
  predicate Readable(o: ManifestObject) {
    && NonEmpty(o.blob.key)
    && |o.references| <= MAX_STATE_NODES
    && forall i :: 0 <= i < |o.references| ==> PlainText(o.references[i])
  }

  /** One reference, among all, that the reader can take: its key, its path, and how often its key occurs. */
  ghost predicate ReadableReference(r: Reference, refs: seq<Reference>) {
    NonEmpty(r.blob.key) && PlainText(r.path) && |WithKey(refs, r.blob.key)| <= MAX_STATE_NODES
  }

  ghost predicate ReadableState(refs: seq<Reference>) {
    forall r :: r in refs ==> ReadableReference(r, refs)
  }

  predicate ValidObject(o: ManifestObject) {
    && ValidStored(o.blob)
    && o.blob.size <= MAX_BACKUP_OBJECT_BYTES
    && o.archivePath == KeyArchivePath(o.blob.key)
    && Readable(o)
  }

  function Sizes(objects: seq<ManifestObject>): (r: seq<nat>)
    ensures |r| == |objects|
  {
    seq(|objects|, i requires 0 <= i < |objects| => objects[i].blob.size)
  }

  const ORGANIZATION := "organizationId"

  /** `assertOrganization`: every record that names an organization names this one. */
  predicate OwnedBy(v: Json, organization: string) {
    match v
    case Arr(items) => forall i :: 0 <= i < |items| ==> OwnedBy(items[i], organization)
    case Obj(fields) =>
      && (Has(fields, ORGANIZATION) ==> Get(fields, ORGANIZATION) == Str(organization))
      && forall i :: 0 <= i < |fields| ==> OwnedBy(fields[i].value, organization)
    case _ => true
  }

  /** The check passes exactly when no record at any depth names another organization. */
  lemma {:induction false} OwnedByIff(v: Json, organization: string)
    ensures OwnedBy(v, organization) <==> OnlyFrom(v, organization)
  {
    hide OnlyFrom, FieldIs, Find;
    OnlyFromSplits(v, organization);
    match v
    case Arr(items) =>
      forall i | 0 <= i < |items|
        ensures OwnedBy(items[i], organization) <==> OnlyFrom(Children(v)[i], organization)
      {
        OwnedByIff(items[i], organization);
      }
      NoFields(v);
    case Obj(fields) =>
      forall i | 0 <= i < |fields|
        ensures OwnedBy(fields[i].value, organization) <==> OnlyFrom(Children(v)[i], organization)
      {
        OwnedByIff(fields[i].value, organization);
      }
      forall w
        ensures FieldIs(v, ORGANIZATION, w) <==> Has(fields, ORGANIZATION) && Get(fields, ORGANIZATION) == w
      {
        FieldIsIff(fields, ORGANIZATION, w);
      }
      if Has(fields, ORGANIZATION) { assert FieldIs(v, ORGANIZATION, Get(fields, ORGANIZATION)); }
    case _ => NoFields(v);
  }

  lemma NoFields(v: Json)
    requires !v.Obj?
    ensures forall key, w :: !FieldIs(v, key, w)
  {
  }

  /** The state of a manifest is valid at its revision, and its references are well formed and consistent. */
  ghost predicate StateOk(schema: Schema, organization: string, state: Json, revision: nat) {
    && ValidState(schema, state)
    && OwnedBy(state, organization)
    && Revision(state) == Num(Decimal(revision))
    && Collect(state, ROOT).Some?
    && Consistent(Collect(state, ROOT).value)
  }

  /** Exactly the manifests that `validateManifest` accepts. */
  ghost predicate ManifestOk(schema: Schema, m: Manifest, limit: nat) {
    && |m.objects| <= MAX_BACKUP_OBJECTS
    && StateOk(schema, m.organization, m.state, m.revision)
    && (forall i :: 0 <= i < |m.objects| ==> ValidObject(m.objects[i]))
    && Sum(Sizes(m.objects)) <= limit
    && ListsAll(m.objects, Collect(m.state, ROOT).value)
  }

  method AllValid(objects: seq<ManifestObject>) returns (ok: bool)
    ensures ok <==> forall i :: 0 <= i < |objects| ==> ValidObject(objects[i])
  {
    for n := 0 to |objects|
      invariant forall i :: 0 <= i < n ==> ValidObject(objects[i])
    {
      if !ValidObject(objects[n]) {
        return false;
      }
    }
    return true;
  }

  method AllDistinct(objects: seq<ManifestObject>) returns (ok: bool)
    ensures ok <==> DistinctKeys(objects, ObjectKey)
  {
    var seen: set<string> := {};
    for n := 0 to |objects|
      invariant forall k :: k in seen <==> exists i :: 0 <= i < n && objects[i].blob.key == k
      invariant DistinctKeys(objects[..n], ObjectKey)
    {
      if objects[n].blob.key in seen {
        var i :| 0 <= i < n && objects[i].blob.key == objects[n].blob.key;
        assert ObjectKey(objects[i]) == ObjectKey(objects[n]);
        return false;
      }
      assert forall i :: 0 <= i < n ==> ObjectKey(objects[..n][i]) != ObjectKey(objects[n]);
      seen := seen + {objects[n].blob.key};
    }
    assert objects[..|objects|] == objects;
    return true;
  }

  /** `validateManifest` on the parts of a manifest that restoring uses. */
  method ValidateManifest(schema: Schema, m: Manifest, limit: nat) returns (ok: bool)
    ensures ok <==> ManifestOk(schema, m, limit)
    ensures ok ==> OnlyFrom(m.state, m.organization) && BlobsAreGood(m.state)
  {
    hide ListsAll, ValidObject, Consistent, IsGrouping, ValidState, OwnedBy, SameEntries, Sum, Collect, DistinctKeys, OnlyFrom, BlobsAreGood;
    OwnedByIff(m.state, m.organization);
    CollectIff(m.state, ROOT);
    if |m.objects| > MAX_BACKUP_OBJECTS || !ValidState(schema, m.state) || !OwnedBy(m.state, m.organization)
      || Revision(m.state) != Num(Decimal(m.revision)) {
      return false;
    }
    var found := Collect(m.state, ROOT);
    if found.None? {
      return false;
    }
    var groups := RefsByKey(found.value);
    if groups.None? {
      return false;
    }
    var valid := AllValid(m.objects);
    if !valid {
      return false;
    }
    var total := AggregateBytes(Sizes(m.objects), limit);
    if total.None? {
      return false;
    }
    GroupsNotEmpty(groups.value, found.value);
    var expected := ObjectsOf(groups.value);
    ObjectsListAll(groups.value, found.value);
    SameEntriesDecides(m.objects, expected, found.value);
    var distinct := AllDistinct(m.objects);
    return SameEntries(m.objects, expected) && distinct;
  }

  lemma GroupsNotEmpty(groups: seq<Group>, refs: seq<Reference>)
    requires IsGrouping(groups, refs)
    ensures forall i :: 0 <= i < |groups| ==> groups[i].refs != []
  {
  }

  // ---------------------------------------------------------------- capture

  /** The source holds the bytes that the references of a group promise. */
  predicate Held(g: Group, source: map<string, Bytes>)
    requires g.refs != []
  {
    && g.key in source
    && |source[g.key]| <= MAX_BACKUP_OBJECT_BYTES
    && DigestText(source[g.key]) == g.refs[0].blob.digest
    && |source[g.key]| == g.refs[0].blob.size
  }

  function GroupSizes(groups: seq<Group>): (r: seq<nat>)
    requires forall i :: 0 <= i < |groups| ==> groups[i].refs != []
    ensures |r| == |groups|
  {
    Sizes(ObjectsOf(groups))
  }

  /** The states that can be captured from a source within a limit. */
  ghost predicate Capturable(schema: Schema, organization: string, state: Json, source: map<string, Bytes>, limit: nat) {
    && ValidState(schema, state)
    && OwnedBy(state, organization)
    && Collect(state, ROOT).Some?
    && var refs := Collect(state, ROOT).value;
      && Consistent(refs)
      && IsGrouping(Grouped(refs), refs)
      && |Grouped(refs)| <= MAX_BACKUP_OBJECTS
      && Sum(GroupSizes(Grouped(refs))) <= limit
      && forall g :: g in Grouped(refs) ==> Held(g, source)
  }

  /** Each listed object is archived with the bytes its digest and size promise. */
  ghost predicate Archived(objects: seq<ManifestObject>, archive: map<string, Bytes>) {
    forall i :: 0 <= i < |objects| ==> ArchivedObject(objects[i], archive)
  }

  predicate ArchivedObject(o: ManifestObject, archive: map<string, Bytes>) {
    && o.archivePath in archive
    && DigestText(archive[o.archivePath]) == o.blob.digest
    && |archive[o.archivePath]| == o.blob.size
  }

  function RevisionNumber(schema: Schema, v: Json): (n: nat)
    requires ValidState(schema, v)
    ensures Revision(v) == Num(Decimal(n))
  {
    if Has(v.fields, REVISION) then Value(Get(v.fields, REVISION).text) else 0
  }

  // ---------------------------------------------------------------- the order of objects

  lemma {:induction false} SumAppend(a: seq<nat>, b: seq<nat>)
    ensures Sum(a + b) == Sum(a) + Sum(b)
  {
    if b == [] {
      assert a + b == a;
    } else {
      assert (a + b)[..|a + b| - 1] == a + b[..|b| - 1];
      SumAppend(a, b[..|b| - 1]);
    }
  }

  lemma SumCons(x: nat, s: seq<nat>)
    ensures Sum([x] + s) == x + Sum(s)
  {
    SumAppend([x], s);
    var none: seq<nat> := [];
    assert [x][..0] == none;
    assert Sum([x]) == x;
  }

  function FirstSizes(groups: seq<Group>): (r: seq<nat>)
    requires forall g :: g in groups ==> g.refs != []
    ensures |r| == |groups|
  {
    if groups == [] then [] else [groups[0].refs[0].blob.size] + FirstSizes(groups[1..])
  }

  lemma {:induction false} InsertKeepsSum(g: Group, groups: seq<Group>)
    requires g.refs != [] && forall h :: h in groups ==> h.refs != []
    ensures forall h :: h in Insert(g, groups, GroupKey) ==> h.refs != []
    ensures Sum(FirstSizes(Insert(g, groups, GroupKey))) == g.refs[0].blob.size + Sum(FirstSizes(groups))
  {
    InsertMembers(g, groups, GroupKey);
    var r := Insert(g, groups, GroupKey);
    SumCons(r[0].refs[0].blob.size, FirstSizes(r[1..]));
    if groups == [] {
      assert FirstSizes(r[1..]) == [] == FirstSizes(groups);
    } else if Leq(GroupKey(g), GroupKey(groups[0])) {
      assert r[1..] == groups;
    } else {
      InsertKeepsSum(g, groups[1..]);
      assert r[1..] == Insert(g, groups[1..], GroupKey);
      SumCons(groups[0].refs[0].blob.size, FirstSizes(groups[1..]));
    }
  }

  lemma {:induction false} SortKeepsSum(groups: seq<Group>)
    requires forall h :: h in groups ==> h.refs != []
    ensures forall h :: h in SortBy(groups, GroupKey) ==> h.refs != []
    ensures Sum(FirstSizes(SortBy(groups, GroupKey))) == Sum(FirstSizes(groups))
  {
    if groups != [] {
      SortKeepsSum(groups[1..]);
      InsertKeepsSum(groups[0], SortBy(groups[1..], GroupKey));
      SumCons(groups[0].refs[0].blob.size, FirstSizes(groups[1..]));
    }
  }

  lemma SizesOfTail(groups: seq<Group>)
    requires groups != [] && forall i :: 0 <= i < |groups| ==> groups[i].refs != []
    ensures GroupSizes(groups) == [groups[0].refs[0].blob.size] + GroupSizes(groups[1..])
  {
    var rest := groups[1..];
    forall i | 0 <= i < |rest|
      ensures GroupSizes(groups)[i + 1] == GroupSizes(rest)[i]
    {
      assert rest[i] == groups[i + 1];
    }
  }

  lemma {:induction false} FirstSizesAreSizes(groups: seq<Group>)
    requires forall i :: 0 <= i < |groups| ==> groups[i].refs != []
    ensures forall g :: g in groups ==> g.refs != []
    ensures FirstSizes(groups) == GroupSizes(groups)
  {
    if groups != [] {
      hide ObjectsOf;
      FirstSizesAreSizes(groups[1..]);
      SizesOfTail(groups);
    }
  }

  /** Sorting the groups keeps them a grouping with the same members and the same total. */
  lemma SortedGrouping(groups: seq<Group>, refs: seq<Reference>)
    requires IsGrouping(groups, refs)
    ensures IsGrouping(SortBy(groups, GroupKey), refs)
    ensures forall g :: g in SortBy(groups, GroupKey) <==> g in groups
    ensures Sum(GroupSizes(SortBy(groups, GroupKey))) == Sum(GroupSizes(groups))
  {
    hide WithKey, FindGroup, SortBy, Sum, FirstSizes, GroupSizes;
    var sorted := SortBy(groups, GroupKey);
    SortByMembers(groups, GroupKey);
    SortByStrict(groups, GroupKey);
    StrictlySortedDistinct(sorted, GroupKey);
    assert forall i :: 0 <= i < |sorted| ==> sorted[i] in sorted;
    forall key | WithKey(refs, key) != []
      ensures FindGroup(sorted, key) >= 0
    {
      var g := groups[FindGroup(groups, key)];
      assert g in groups && g in sorted;
    }
    FirstSizesAreSizes(groups);
    FirstSizesAreSizes(sorted);
    SortKeepsSum(groups);
  }

  // ---------------------------------------------------------------- the capture itself

  datatype Capture = Capture(manifest: Option<Manifest>, archive: map<string, Bytes>)

  /**
   `createLogicalBackup`: succeeds exactly on capturable states. The manifest then holds the state
   and its revision, lists all references, and the archive holds the source's bytes for each key.
   It reads back exactly when the state's own keys and paths are ones the reader takes.
   */
  method CreateLogicalBackup(schema: Schema, organization: string, state: Json, source: map<string, Bytes>, limit: nat)
    returns (c: Capture)
    ensures c.manifest.Some? <==> Capturable(schema, organization, state, source, limit)
    ensures c.manifest.Some? ==> OnlyFrom(state, organization) && BlobsAreGood(state)
    ensures c.manifest.Some? ==>
      var m := c.manifest.value;
      && m.organization == organization && m.state == state
      && StateOk(schema, organization, state, m.revision)
      && ListsAll(m.objects, Collect(state, ROOT).value)
      && Archived(m.objects, c.archive)
      && (forall i :: 0 <= i < |m.objects| ==>
          m.objects[i].blob.key in source && c.archive[m.objects[i].archivePath] == source[m.objects[i].blob.key])
      && (ManifestOk(schema, m, limit) <==> ReadableState(Collect(state, ROOT).value))
  {
    hide Collect, Consistent, IsGrouping, ListsAll, Grouped, Sum, ValidState, OwnedBy, ValidObject, Readable, ReadableState, OnlyFrom,
      BlobsAreGood;
    OwnedByIff(state, organization);
    CollectIff(state, ROOT);
    c := Capture(None, map[]);
    if !ValidState(schema, state) || !OwnedBy(state, organization) || Collect(state, ROOT).None? {
      return;
    }
    var refs := Collect(state, ROOT).value;
    var found := RefsByKey(refs);
    if found.None? {
      return;
    }
    var groups := found.value;
    GroupsNotEmpty(groups, refs);
    if |groups| > MAX_BACKUP_OBJECTS {
      return;
    }
    var total := AggregateBytes(GroupSizes(groups), limit);
    if total.None? {
      return;
    }
    SortedGrouping(groups, refs);
    var sorted := SortBy(groups, GroupKey);
    GroupsNotEmpty(sorted, refs);
    GroupsHaveTheirKeys(sorted, refs);
    var archive, ok := ArchiveGroups(sorted, source, limit);
    if !ok {
      return Capture(None, archive);
    }
    var m := Manifest(organization, RevisionNumber(schema, state), state, ObjectsOf(sorted));
    ObjectsListAll(sorted, refs);
    ReadableManifestIsOk(schema, m, limit, sorted, source);
    ObjectsReadableIff(sorted, refs);
    return Capture(Some(m), archive);
  }

  ghost predicate OwnKey(g: Group) {
    g.refs != [] && g.refs[0].blob.key == g.key
  }

  lemma GroupsHaveTheirKeys(groups: seq<Group>, refs: seq<Reference>)
    requires IsGrouping(groups, refs)
    ensures DistinctKeys(groups, GroupKey)
    ensures forall i :: 0 <= i < |groups| ==> OwnKey(groups[i])
  {
    forall i | 0 <= i < |groups|
      ensures OwnKey(groups[i])
    {
      FirstHasKey(refs, groups[i].key);
    }
  }

  ghost predicate Copied(g: Group, source: map<string, Bytes>, archive: map<string, Bytes>) {
    && g.key in source && KeyArchivePath(g.key) in archive
    && archive[KeyArchivePath(g.key)] == source[g.key]
  }

  /** Writing one more key leaves the others as they are. */
  lemma CopyKeepsOthers(groups: seq<Group>, n: nat, source: map<string, Bytes>, archive: map<string, Bytes>)
    requires n < |groups| && DistinctKeys(groups, GroupKey) && groups[n].key in source
    requires forall i :: 0 <= i < n ==> Copied(groups[i], source, archive)
    ensures forall i :: 0 <= i <= n ==>
      Copied(groups[i], source, archive[KeyArchivePath(groups[n].key) := source[groups[n].key]])
  {
    hide KeyArchivePath;
    forall i | 0 <= i < n
      ensures KeyArchivePath(groups[i].key) != KeyArchivePath(groups[n].key)
    {
      assert GroupKey(groups[i]) != GroupKey(groups[n]);
      if KeyArchivePath(groups[i].key) == KeyArchivePath(groups[n].key) {
        ArchivePathInjective(groups[i].key, groups[n].key);
      }
    }
  }

  lemma CopiedIsArchived(groups: seq<Group>, source: map<string, Bytes>, archive: map<string, Bytes>)
    requires forall i :: 0 <= i < |groups| ==> OwnKey(groups[i])
    requires forall i :: 0 <= i < |groups| ==> groups[i].refs != [] && Held(groups[i], source)
    requires forall i :: 0 <= i < |groups| ==> Copied(groups[i], source, archive)
    ensures Archived(ObjectsOf(groups), archive)
    ensures forall i :: 0 <= i < |groups| ==>
      groups[i].key in source && archive[ObjectsOf(groups)[i].archivePath] == source[groups[i].key]
  {
    hide KeyArchivePath, DigestText, SortBy;
  }

  /** The loop over the sorted keys: read, verify, archive. */
  method ArchiveGroups(groups: seq<Group>, source: map<string, Bytes>, limit: nat)
    returns (archive: map<string, Bytes>, ok: bool)
    requires forall i :: 0 <= i < |groups| ==> groups[i].refs != [] && OwnKey(groups[i])
    requires DistinctKeys(groups, GroupKey)
    requires Sum(GroupSizes(groups)) <= limit
    ensures ok <==> forall g :: g in groups ==> Held(g, source)
    ensures ok ==> Archived(ObjectsOf(groups), archive)
    ensures ok ==> forall i :: 0 <= i < |groups| ==>
      groups[i].key in source && archive[ObjectsOf(groups)[i].archivePath] == source[groups[i].key]
  {
    archive := map[];
    var total := 0;
    var sizes := GroupSizes(groups);
    assert Sum(sizes[..0]) == 0;
    hide Sum, Copied, DistinctKeys, Archived;
    for n := 0 to |groups|
      invariant total == Sum(sizes[..n])
      invariant forall i :: 0 <= i < n ==> Held(groups[i], source)
      invariant forall i :: 0 <= i < n ==> Copied(groups[i], source, archive)
    {
      var g := groups[n];
      assert g in groups;
      SumStep(sizes, n);
      if g.key !in source {
        return archive, false;
      }
      var bytes := source[g.key];
      if |bytes| > MAX_BACKUP_OBJECT_BYTES || |bytes| > limit - total {
        return archive, false;
      }
      total := total + |bytes|;
      if DigestText(bytes) != g.refs[0].blob.digest || |bytes| != g.refs[0].blob.size {
        return archive, false;
      }
      CopyKeepsOthers(groups, n, source, archive);
      archive := archive[KeyArchivePath(g.key) := bytes];
    }
    CopiedIsArchived(groups, source, archive);
    ok := true;
  }

  lemma SumStep(sizes: seq<nat>, n: nat)
    requires n < |sizes|
    ensures Sum(sizes[..n + 1]) == Sum(sizes[..n]) + sizes[n] <= Sum(sizes)
  {
    assert sizes[..n + 1][..n] == sizes[..n];
    SumOfPrefix(sizes, n + 1);
  }

  lemma {:induction false} CollectedAreValid(v: Json, path: string)
    requires Collect(v, path).Some?
    ensures forall r :: r in Collect(v, path).value ==> ValidStored(r.blob)
    decreases v, 1
  {
    match v
    case Arr(items) => CollectedItemsAreValid(items, path, 0);
    case Obj(fields) => if !HasBlobShape(fields) { CollectedFieldsAreValid(fields, path); }
    case _ =>
  }

  lemma {:induction false} CollectedItemsAreValid(items: seq<Json>, path: string, index: nat)
    requires CollectItems(items, path, index).Some?
    ensures forall r :: r in CollectItems(items, path, index).value ==> ValidStored(r.blob)
    decreases items, 0
  {
    if items != [] {
      CollectedAreValid(items[0], path + "[" + Decimal(index) + "]");
      CollectedItemsAreValid(items[1..], path, index + 1);
    }
  }

  lemma {:induction false} CollectedFieldsAreValid(fields: seq<Field>, path: string)
    requires CollectFields(fields, path).Some?
    ensures forall r :: r in CollectFields(fields, path).value ==> ValidStored(r.blob)
    decreases fields, 0
  {
    if fields != [] {
      CollectedAreValid(fields[0].value, path + "." + fields[0].key);
      CollectedFieldsAreValid(fields[1..], path);
    }
  }

  lemma ReadableManifestIsOk(schema: Schema, m: Manifest, limit: nat, groups: seq<Group>, source: map<string, Bytes>)
    requires StateOk(schema, m.organization, m.state, m.revision)
    requires IsGrouping(groups, Collect(m.state, ROOT).value)
    requires |groups| <= MAX_BACKUP_OBJECTS
    requires m.objects == ObjectsOf(groups) && Sum(Sizes(m.objects)) <= limit
    requires ListsAll(m.objects, Collect(m.state, ROOT).value)
    requires forall g :: g in groups ==> Held(g, source)
    ensures ManifestOk(schema, m, limit) <==> forall i :: 0 <= i < |m.objects| ==> Readable(m.objects[i])
  {
    hide ListsAll, Readable, Sum, Collect, ValidStored, ValidState, OwnedBy;
    var refs := Collect(m.state, ROOT).value;
    CollectedAreValid(m.state, ROOT);
    forall i | 0 <= i < |groups|
      ensures ValidObject(m.objects[i]) <==> Readable(m.objects[i])
    {
      assert groups[i] in groups;
      FirstHasKey(refs, groups[i].key);
      WithKeySpec(refs, groups[i].key);
      assert groups[i].refs[0] in groups[i].refs && groups[i].refs[0] in refs;
    }
  }

  // ---------------------------------------------------------------- what the reader refuses

  lemma PathsOfMembers(refs: seq<Reference>, p: string)
    ensures p in PathsOf(refs) <==> exists r :: r in refs && r.path == p
  {
    if i :| 0 <= i < |PathsOf(refs)| && PathsOf(refs)[i] == p {
      assert refs[i] in refs;
    }
    if r :| r in refs && r.path == p {
      var i :| 0 <= i < |refs| && refs[i] == r;
      assert PathsOf(refs)[i] == p;
    }
  }

  /** An entry that lists a key's references is readable exactly when each of them is. */
  lemma ListedReadableIff(o: ManifestObject, refs: seq<Reference>)
    requires Lists(o, refs)
    ensures Readable(o) <==> forall r :: r in WithKey(refs, o.blob.key) ==> ReadableReference(r, refs)
  {
    hide NonEmpty, PlainText, WithKey, PathsOf, SortBy;
    var mine := WithKey(refs, o.blob.key);
    WithKeySpec(refs, o.blob.key);
    SortByMembers(o.references, Id);
    SortByMembers(PathsOf(mine), Id);
    assert |o.references| == |mine|;
    forall p
      ensures p in o.references <==> exists r :: r in mine && r.path == p
    {
      PathsOfMembers(mine, p);
    }
    assert mine[0] in mine;
    if Readable(o) {
      forall r | r in mine
        ensures ReadableReference(r, refs)
      {
        assert r.path in o.references;
      }
    } else if forall r :: r in mine ==> ReadableReference(r, refs) {
      var i :| 0 <= i < |o.references| && !PlainText(o.references[i]);
      assert o.references[i] in o.references;
    }
  }

  lemma ListedReadable(objects: seq<ManifestObject>, refs: seq<Reference>)
    requires ListsAll(objects, refs)
    ensures (forall i :: 0 <= i < |objects| ==> Readable(objects[i])) <==> ReadableState(refs)
  {
    hide Readable, ReadableReference, WithKey, Lists;
    forall i | 0 <= i < |objects|
      ensures Readable(objects[i]) <==> forall r :: r in WithKey(refs, objects[i].blob.key) ==> ReadableReference(r, refs)
    {
      ListedReadableIff(objects[i], refs);
    }
    forall r | r in refs
      ensures r in WithKey(refs, r.blob.key) && IsListed(objects, r.blob.key)
    {
      WithKeySpec(refs, r.blob.key);
    }
    forall i, r | 0 <= i < |objects| && r in WithKey(refs, objects[i].blob.key)
      ensures r in refs
    {
      WithKeySpec(refs, objects[i].blob.key);
    }
  }

  lemma ObjectsReadableIff(groups: seq<Group>, refs: seq<Reference>)
    requires IsGrouping(groups, refs)
    ensures (forall i :: 0 <= i < |groups| ==> Readable(ObjectsOf(groups)[i])) <==> ReadableState(refs)
  {
    hide Readable, ReadableState, IsGrouping, ListsAll;
    GroupsNotEmpty(groups, refs);
    ObjectsListAll(groups, refs);
    ListedReadable(ObjectsOf(groups), refs);
  }

  /** No manifest of an unreadable state is ever accepted. */
  lemma UnreadableStateIsRefused(schema: Schema, m: Manifest, limit: nat)
    requires Collect(m.state, ROOT).Some? && !ReadableState(Collect(m.state, ROOT).value)
    ensures !ManifestOk(schema, m, limit)
  {
    hide ListsAll, Sum, Collect, ValidState, OwnedBy, ReadableState, Readable;
    if ManifestOk(schema, m, limit) {
      forall i | 0 <= i < |m.objects|
        ensures Readable(m.objects[i])
      {
        assert ValidObject(m.objects[i]);
      }
      ListedReadable(m.objects, Collect(m.state, ROOT).value);
    }
  }
}
