/** Logical backups: the objects a state refers to, the manifest that lists them, and its validation. */
module Manifests {
  import opened Options
  import opened Order
  import opened Digest
  import opened Numerals
  import opened Json
  import opened Blobs
  import opened BlobOrder
  import BundleFormat

  const MAX_BACKUP_OBJECTS := 10_000
  const MAX_BACKUP_OBJECT_BYTES := 100 * 1024 * 1024
  const MAX_STATE_NODES := 200_000

  datatype ManifestObject = ManifestObject(blob: StoredBlob, archivePath: string, references: seq<string>)

  datatype Manifest = Manifest(organization: string, revision: nat, state: Json, objects: seq<ManifestObject>)

  /** The schema test that `assertRegistryState` applies to a whole state. */
  type Schema = Json -> bool

  predicate ValidState(schema: Schema, v: Json) {
    && v.Obj?
    && (Has(v.fields, REVISION) ==> Get(v.fields, REVISION).Num? && SafeSize(Get(v.fields, REVISION).text))
    && schema(v)
  }

  // ---------------------------------------------------------------- references by key

  datatype Group = Group(key: string, refs: seq<Reference>)

  function GroupKey(g: Group): string { g.key }

  function FindGroup(groups: seq<Group>, key: string): (i: int)
    ensures -1 <= i < |groups|
    ensures i >= 0 ==> groups[i].key == key
    ensures i < 0 ==> forall k :: 0 <= k < |groups| ==> groups[k].key != key
  {
    var i := IndexOf(groups, GroupKey, key);
    assert i < 0 ==> forall k :: 0 <= k < |groups| ==> GroupKey(groups[k]) != key;
    i
  }

  function AddReference(groups: seq<Group>, r: Reference): seq<Group> {
    var i := FindGroup(groups, r.blob.key);
    if i < 0 then groups + [Group(r.blob.key, [r])]
    else groups[i := Group(r.blob.key, groups[i].refs + [r])]
  }

  /** The groups of `refsByKey`, in the order their keys first occur. */
  function Grouped(refs: seq<Reference>): seq<Group> {
    if refs == [] then [] else AddReference(Grouped(refs[..|refs| - 1]), refs[|refs| - 1])
  }

  function WithKey(refs: seq<Reference>, key: string): seq<Reference> {
    if refs == [] then []
    else WithKey(refs[..|refs| - 1], key) + (if refs[|refs| - 1].blob.key == key then [refs[|refs| - 1]] else [])
  }

  /** One group for each key that occurs, holding exactly the references to that key, in order. */
  ghost predicate IsGrouping(groups: seq<Group>, refs: seq<Reference>) {
    && DistinctKeys(groups, GroupKey)
    && (forall i :: 0 <= i < |groups| ==> groups[i].refs == WithKey(refs, groups[i].key) != [])
    && (forall key :: WithKey(refs, key) != [] ==> FindGroup(groups, key) >= 0)
  }

  lemma {:induction false} GroupedSpec(refs: seq<Reference>)
    ensures IsGrouping(Grouped(refs), refs)
  {
    if refs != [] {
      var front, r := refs[..|refs| - 1], refs[|refs| - 1];
      GroupedSpec(front);
      assert forall key :: WithKey(refs, key) == WithKey(front, key) + if key == r.blob.key then [r] else [];
      AddedSpec(Grouped(front), front, r, refs);
    }
  }

  lemma AddedSpec(was: seq<Group>, front: seq<Reference>, r: Reference, refs: seq<Reference>)
    requires IsGrouping(was, front)
    requires forall key :: WithKey(refs, key) == WithKey(front, key) + if key == r.blob.key then [r] else []
    ensures IsGrouping(AddReference(was, r), refs)
  {
    hide FindGroup, WithKey;
    var now := AddReference(was, r);
    var i := FindGroup(was, r.blob.key);
    if i < 0 {
      assert WithKey(front, r.blob.key) == [];
    }
    forall k | 0 <= k < |now|
      ensures now[k].refs == WithKey(refs, now[k].key) != []
    {
      if k != i && k < |was| {
        assert GroupKey(was[k]) != r.blob.key;
      }
    }
    forall key | WithKey(refs, key) != []
      ensures FindGroup(now, key) >= 0
    {
      var k := if key == r.blob.key then (if i < 0 then |was| else i) else FindGroup(was, key);
      assert now[k].key == key;
    }
  }

  lemma {:induction false} WithKeySpec(refs: seq<Reference>, key: string)
    ensures forall r :: r in WithKey(refs, key) <==> r in refs && r.blob.key == key
  {
    if refs != [] {
      var front := refs[..|refs| - 1];
      WithKeySpec(front, key);
      assert refs == front + [refs[|refs| - 1]];
    }
  }

  /** References to one key agree on digest and size. */
  ghost predicate Consistent(refs: seq<Reference>) {
    forall r, s :: r in refs && s in refs && r.blob.key == s.blob.key ==> r.blob == s.blob
  }

  predicate Uniform(g: Group) {
    forall i :: 0 <= i < |g.refs| ==> g.refs[i].blob.digest == g.refs[0].blob.digest && g.refs[i].blob.size == g.refs[0].blob.size
  }

  lemma ConsistentIffUniform(refs: seq<Reference>)
    ensures Consistent(refs) <==> forall g :: g in Grouped(refs) ==> Uniform(g)
  {
    GroupedSpec(refs);
    var groups := Grouped(refs);
    if Consistent(refs) {
      forall g | g in groups
        ensures Uniform(g)
      {
        WithKeySpec(refs, g.key);
        assert forall i :: 0 <= i < |g.refs| ==> g.refs[i] in g.refs;
      }
    }
    if forall g :: g in groups ==> Uniform(g) {
      forall r, s | r in refs && s in refs && r.blob.key == s.blob.key
        ensures r.blob == s.blob
      {
        WithKeySpec(refs, r.blob.key);
        assert r in WithKey(refs, r.blob.key) && s in WithKey(refs, r.blob.key);
        var g := groups[FindGroup(groups, r.blob.key)];
        assert g in groups && r in g.refs && s in g.refs;
      }
    }
  }

  /** `refsByKey`: the groups, or nothing when a key is used with two digests or sizes. */
  method RefsByKey(refs: seq<Reference>) returns (r: Option<seq<Group>>)
    ensures r.Some? <==> Consistent(refs)
    ensures r.Some? ==> r.value == Grouped(refs) && IsGrouping(r.value, refs)
  {
    hide Consistent, Uniform, IsGrouping;
    var groups: seq<Group> := [];
    for n := 0 to |refs|
      invariant groups == Grouped(refs[..n])
    {
      assert refs[..n + 1][..n] == refs[..n];
      var i := FindGroup(groups, refs[n].blob.key);
      if i < 0 {
        groups := groups + [Group(refs[n].blob.key, [refs[n]])];
      } else {
        groups := groups[i := Group(refs[n].blob.key, groups[i].refs + [refs[n]])];
      }
    }
    assert refs[..|refs|] == refs;
    var ok := AllUniform(groups);
    ConsistentIffUniform(refs);
    GroupedSpec(refs);
    return if ok then Some(groups) else None;
  }

  method AllUniform(groups: seq<Group>) returns (ok: bool)
    ensures ok <==> forall g :: g in groups ==> Uniform(g)
  {
    for n := 0 to |groups|
      invariant forall k :: 0 <= k < n ==> Uniform(groups[k])
    {
      if !Uniform(groups[n]) {
        assert groups[n] in groups;
        return false;
      }
    }
    return true;
  }

  // ---------------------------------------------------------------- totals

  function Sum(sizes: seq<nat>): nat {
    if sizes == [] then 0 else Sum(sizes[..|sizes| - 1]) + sizes[|sizes| - 1]
  }

  lemma {:induction false} SumOfPrefix(sizes: seq<nat>, n: nat)
    requires n <= |sizes|
    ensures Sum(sizes[..n]) <= Sum(sizes)
    decreases |sizes| - n
  {
    if n < |sizes| {
      assert sizes[..n + 1][..n] == sizes[..n];
      SumOfPrefix(sizes, n + 1);
    } else {
      assert sizes[..n] == sizes;
    }
  }

  /** `assertAggregateObjectBytes`: adds up without passing the limit, or refuses. */
  method AggregateBytes(sizes: seq<nat>, limit: nat) returns (total: Option<nat>)
    ensures total == if Sum(sizes) <= limit then Some(Sum(sizes)) else None
  {
    var sum := 0;
    for n := 0 to |sizes|
      invariant sum == Sum(sizes[..n]) <= limit
    {
      assert sizes[..n + 1][..n] == sizes[..n];
      SumOfPrefix(sizes, n + 1);
      if sizes[n] > limit - sum {
        return None;
      }
      sum := sum + sizes[n];
    }
    assert sizes[..|sizes|] == sizes;
    return Some(sum);
  }

  // ---------------------------------------------------------------- what a manifest must say

  function KeyArchivePath(key: string): string {
    "objects/" + DigestText(Utf8(key))[7..] + ".bin"
  }

  lemma ArchivePathInjective(a: string, b: string)
    requires KeyArchivePath(a) == KeyArchivePath(b)
    ensures a == b
  {
    var x, y := Hex(Utf8(a)), Hex(Utf8(b));
    assert DigestText(Utf8(a))[7..] == x && DigestText(Utf8(b))[7..] == y;
    var p, q := KeyArchivePath(a), KeyArchivePath(b);
    assert x == p[8..|p| - 4] && y == q[8..|q| - 4];
    HexInjective(Utf8(a), Utf8(b));
    BundleFormat.Utf8Injective(a, b);
  }

  function PathsOf(refs: seq<Reference>): (r: seq<string>)
    ensures |r| == |refs|
  {
    seq(|refs|, i requires 0 <= i < |refs| => refs[i].path)
  }

  function ObjectKey(o: ManifestObject): string { o.blob.key }

  /** The entry that lists the references of one group. */
  function ObjectOf(g: Group): ManifestObject
    requires g.refs != []
  {
    ManifestObject(g.refs[0].blob, KeyArchivePath(g.key), SortBy(PathsOf(g.refs), Id))
  }

  /** What two object lists are compared by. */
  datatype Entry = Entry(blob: StoredBlob, references: seq<string>)

  function EntryKey(e: Entry): string { e.blob.key }

  function EntryOf(o: ManifestObject): Entry {
    Entry(o.blob, SortBy(o.references, Id))
  }

  function Entries(objects: seq<ManifestObject>): (r: seq<Entry>)
    ensures |r| == |objects|
  {
    seq(|objects|, i requires 0 <= i < |objects| => EntryOf(objects[i]))
  }

  /** `sameObjectEntries`. */
  predicate SameEntries(a: seq<ManifestObject>, b: seq<ManifestObject>) {
    SortBy(Entries(a), EntryKey) == SortBy(Entries(b), EntryKey)
  }

  /** The entry lists exactly the references to its key, with their digest and size. */
  ghost predicate Lists(o: ManifestObject, refs: seq<Reference>) {
    var mine := WithKey(refs, o.blob.key);
    mine != [] && mine[0].blob == o.blob && SortBy(o.references, Id) == SortBy(PathsOf(mine), Id)
  }

  ghost predicate IsListed(objects: seq<ManifestObject>, key: string) {
    exists i :: 0 <= i < |objects| && objects[i].blob.key == key
  }

  /** One entry for each referenced key, and no other. */
  ghost predicate ListsAll(objects: seq<ManifestObject>, refs: seq<Reference>) {
    && DistinctKeys(objects, ObjectKey)
    && (forall i :: 0 <= i < |objects| ==> Lists(objects[i], refs))
    && (forall key :: WithKey(refs, key) != [] ==> IsListed(objects, key))
  }

  lemma FirstHasKey(refs: seq<Reference>, key: string)
    requires WithKey(refs, key) != []
    ensures WithKey(refs, key)[0].blob.key == key
  {
    WithKeySpec(refs, key);
    assert WithKey(refs, key)[0] in WithKey(refs, key);
  }

  function ObjectsOf(groups: seq<Group>): (r: seq<ManifestObject>)
    requires forall i :: 0 <= i < |groups| ==> groups[i].refs != []
    ensures |r| == |groups|
  {
    seq(|groups|, i requires 0 <= i < |groups| => ObjectOf(groups[i]))
  }

  /** Listing the groups lists all references. */
  lemma ObjectsListAll(groups: seq<Group>, refs: seq<Reference>)
    requires IsGrouping(groups, refs)
    ensures ListsAll(ObjectsOf(groups), refs)
  {
    var objects := ObjectsOf(groups);
    forall i | 0 <= i < |groups|
      ensures objects[i].blob.key == groups[i].key && Lists(objects[i], refs)
    {
      FirstHasKey(refs, groups[i].key);
      SortByIdempotent(PathsOf(groups[i].refs), Id);
    }
    forall i, j | 0 <= i < j < |groups|
      ensures ObjectKey(objects[i]) != ObjectKey(objects[j])
    {
      assert GroupKey(groups[i]) != GroupKey(groups[j]);
    }
    forall key | WithKey(refs, key) != []
      ensures IsListed(objects, key)
    {
      assert objects[FindGroup(groups, key)].blob.key == key;
    }
  }

  lemma EntriesOf(objects: seq<ManifestObject>, e: Entry)
    ensures e in Entries(objects) <==> exists i :: 0 <= i < |objects| && e == EntryOf(objects[i])
  {
    if i :| 0 <= i < |objects| && e == EntryOf(objects[i]) {
      assert Entries(objects)[i] == e;
    }
  }

  lemma ListsAllHasEntry(a: seq<ManifestObject>, b: seq<ManifestObject>, refs: seq<Reference>, i: nat)
    requires ListsAll(a, refs) && ListsAll(b, refs) && i < |a|
    ensures EntryOf(a[i]) in Entries(b)
  {
    assert Lists(a[i], refs);
    assert IsListed(b, a[i].blob.key);
    var j :| 0 <= j < |b| && b[j].blob.key == a[i].blob.key;
    assert Lists(b[j], refs);
    assert Entries(b)[j] == EntryOf(a[i]);
  }

  /** Comparing sorted entries decides whether a duplicate-free list names exactly the references. */
  lemma SameEntriesDecides(a: seq<ManifestObject>, b: seq<ManifestObject>, refs: seq<Reference>)
    requires ListsAll(b, refs)
    ensures SameEntries(a, b) && DistinctKeys(a, ObjectKey) <==> ListsAll(a, refs)
  {
    hide SortBy, Lists;
    var x, y := Entries(a), Entries(b);
    SortByMembers(x, EntryKey);
    SortByMembers(y, EntryKey);
    if SameEntries(a, b) && DistinctKeys(a, ObjectKey) {
      assert forall e :: e in x <==> e in y;
      SameEntriesListAll(a, b, refs);
    }
    if ListsAll(a, refs) {
      forall e
        ensures e in x <==> e in y
      {
        EntriesOf(a, e);
        EntriesOf(b, e);
        if i :| 0 <= i < |a| && e == EntryOf(a[i]) { ListsAllHasEntry(a, b, refs, i); }
        if j :| 0 <= j < |b| && e == EntryOf(b[j]) { ListsAllHasEntry(b, a, refs, j); }
      }
      EntriesDistinct(a);
      EntriesDistinct(b);
      SortByIgnoresOrder(x, y, EntryKey);
    }
  }

  lemma SameEntriesListAll(a: seq<ManifestObject>, b: seq<ManifestObject>, refs: seq<Reference>)
    requires ListsAll(b, refs) && DistinctKeys(a, ObjectKey)
    requires forall e :: e in Entries(a) <==> e in Entries(b)
    ensures ListsAll(a, refs)
  {
    hide SortBy, WithKey;
    var x, y := Entries(a), Entries(b);
    forall i | 0 <= i < |a|
      ensures Lists(a[i], refs)
    {
      assert x[i] in x && x[i] in y;
      EntriesOf(b, x[i]);
      var j :| 0 <= j < |b| && x[i] == EntryOf(b[j]);
      assert Lists(b[j], refs);
    }
    forall key | WithKey(refs, key) != []
      ensures IsListed(a, key)
    {
      assert IsListed(b, key);
      var j :| 0 <= j < |b| && b[j].blob.key == key;
      assert y[j] in y && y[j] in x;
      EntriesOf(a, y[j]);
      var i :| 0 <= i < |a| && y[j] == EntryOf(a[i]);
      assert a[i].blob.key == key;
    }
  }

  lemma EntriesDistinct(objects: seq<ManifestObject>)
    requires DistinctKeys(objects, ObjectKey)
    ensures DistinctKeys(Entries(objects), EntryKey)
  {
    forall i, j | 0 <= i < j < |objects|
      ensures EntryKey(Entries(objects)[i]) != EntryKey(Entries(objects)[j])
    {
      assert ObjectKey(objects[i]) != ObjectKey(objects[j]);
    }
  }
}
