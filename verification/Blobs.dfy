/**
 Blob references inside a JSON state: finding them all, and renaming their keys.
 */
module Blobs {
  import opened Options
  import opened Numerals
  import opened Paths
  import opened Json
  import opened CanonicalJson

  const MAX_SAFE_INTEGER := 9007199254740991
  const MAX_KEY_LENGTH := 4096

  datatype StoredBlob = StoredBlob(key: string, digest: string, size: nat)

  datatype Reference = Reference(blob: StoredBlob, path: string)

  // ---------------------------------------------------------------- recognising a reference

  predicate Has(fields: seq<Field>, key: string) {
    Find(fields, key) >= 0
  }

  function Get(fields: seq<Field>, key: string): Json
    requires Has(fields, key)
  {
    fields[Find(fields, key)].value
  }

  /** All three fields together mark a reference; any two of them occur elsewhere. */
  predicate HasBlobShape(fields: seq<Field>) {
    Has(fields, "key") && Has(fields, "digest") && Has(fields, "size")
  }

  predicate DotSegment(s: string) {
    s == "." || s == ".."
  }

  predicate SafeKey(s: string) {
    && 0 < |s| <= MAX_KEY_LENGTH
    && s[0] != '/' && s[|s| - 1] != '/'
    && (forall c :: c in s ==> c != '\\' && c != ':' && c != '\0')
    && (forall i :: 0 <= i < |s| - 1 ==> !(s[i] == '/' && s[i + 1] == '/'))
    && (forall p :: p in Split(s, '/') ==> !DotSegment(p))
  }

  predicate IsDigest(s: string) {
    && |s| >= 7 && s[..7] == "sha256:"
    && forall c :: c in s[7..] ==> '0' <= c <= '9' || 'a' <= c <= 'f'
  }

  predicate SafeSize(text: string) {
    Digits(text) && Value(text) <= MAX_SAFE_INTEGER && Decimal(Value(text)) == text
  }

  predicate ValidStored(b: StoredBlob) {
    SafeKey(b.key) && IsDigest(b.digest) && b.size <= MAX_SAFE_INTEGER
  }

  predicate ValidBlob(fields: seq<Field>)
    requires HasBlobShape(fields)
  {
    var k, d, n := Get(fields, "key"), Get(fields, "digest"), Get(fields, "size");
    && k.Str? && SafeKey(k.s)
    && d.Str? && IsDigest(d.s)
    && n.Num? && SafeSize(n.text)
  }

  function BlobOf(fields: seq<Field>): StoredBlob
    requires HasBlobShape(fields) && ValidBlob(fields)
  {
    StoredBlob(Get(fields, "key").s, Get(fields, "digest").s, Value(Get(fields, "size").text))
  }

  // ---------------------------------------------------------------- collecting

  function Append(a: Option<seq<Reference>>, b: Option<seq<Reference>>): Option<seq<Reference>> {
    if a.Some? && b.Some? then Some(a.value + b.value) else None
  }

  /** `collectBlobReferences`; `None` when a malformed reference is met. */
  function Collect(v: Json, path: string): Option<seq<Reference>>
    decreases v, 1
  {
    match v
    case Arr(items) => CollectItems(items, path, 0)
    case Obj(fields) =>
      if HasBlobShape(fields) then
        if ValidBlob(fields) then Some([Reference(BlobOf(fields), path)]) else None
      else CollectFields(fields, path)
    case _ => Some([])
  }

  function CollectItems(items: seq<Json>, path: string, index: nat): Option<seq<Reference>>
    decreases items, 0
  {
    if items == [] then Some([])
    else Append(Collect(items[0], path + "[" + Decimal(index) + "]"), CollectItems(items[1..], path, index + 1))
  }

  function CollectFields(fields: seq<Field>, path: string): Option<seq<Reference>>
    decreases fields, 0
  {
    if fields == [] then Some([])
    else Append(Collect(fields[0].value, path + "." + fields[0].key), CollectFields(fields[1..], path))
  }

  // ---------------------------------------------------------------- rewriting

  type KeyMap = map<string, StoredBlob>

  function SetField(f: Field, b: StoredBlob): Field {
    if f.key == "key" then f.(value := Str(b.key))
    else if f.key == "digest" then f.(value := Str(b.digest))
    else if f.key == "size" then f.(value := Num(Decimal(b.size)))
    else f
  }

  /** The record with its three blob fields replaced, all others in place. */
  function SetBlob(fields: seq<Field>, b: StoredBlob): (r: seq<Field>)
    ensures |r| == |fields|
  {
    seq(|fields|, i requires 0 <= i < |fields| => SetField(fields[i], b))
  }

  /** `rewriteBlobKeys`; `None` on a malformed reference or one without a replacement. */
  function Rewrite(v: Json, m: KeyMap): Option<Json>
    decreases v, 1
  {
    match v
    case Arr(items) =>
      (match RewriteItems(items, m) case Some(r) => Some(Arr(r)) case None => None)
    case Obj(fields) =>
      if HasBlobShape(fields) then
        if !ValidBlob(fields) || BlobOf(fields).key !in m then None
        else Some(Obj(SetBlob(fields, m[BlobOf(fields).key])))
      else (match RewriteFields(fields, m) case Some(r) => Some(Obj(r)) case None => None)
    case _ => Some(v)
  }

  function RewriteItems(items: seq<Json>, m: KeyMap): Option<seq<Json>>
    decreases items, 0
  {
    if items == [] then Some([])
    else
      var h, t := Rewrite(items[0], m), RewriteItems(items[1..], m);
      if h.Some? && t.Some? then Some([h.value] + t.value) else None
  }

  function RewriteFields(fields: seq<Field>, m: KeyMap): Option<seq<Field>>
    decreases fields, 0
  {
    if fields == [] then Some([])
    else
      var h, t := Rewrite(fields[0].value, m), RewriteFields(fields[1..], m);
      if h.Some? && t.Some? then Some([Field(fields[0].key, h.value)] + t.value) else None
  }

  // ---------------------------------------------------------------- when rewriting succeeds

  ghost predicate AllMapped(refs: seq<Reference>, m: KeyMap) {
    forall r :: r in refs ==> r.blob.key in m
  }

  /** Rewriting succeeds exactly on states whose references are all well formed and all mapped. */
  lemma {:induction false} RewriteSucceedsIff(v: Json, m: KeyMap, path: string)
    ensures Rewrite(v, m).Some? <==> Collect(v, path).Some? && AllMapped(Collect(v, path).value, m)
    decreases v, 1
  {
    match v
    case Arr(items) => RewriteItemsSucceedIff(items, m, path, 0);
    case Obj(fields) =>
      if !HasBlobShape(fields) { RewriteFieldsSucceedIff(fields, m, path); }
    case _ =>
  }

  lemma {:induction false} RewriteItemsSucceedIff(items: seq<Json>, m: KeyMap, path: string, index: nat)
    ensures RewriteItems(items, m).Some? <==>
      CollectItems(items, path, index).Some? && AllMapped(CollectItems(items, path, index).value, m)
    decreases items, 0
  {
    if items != [] {
      RewriteSucceedsIff(items[0], m, path + "[" + Decimal(index) + "]");
      RewriteItemsSucceedIff(items[1..], m, path, index + 1);
    }
  }

  lemma {:induction false} RewriteFieldsSucceedIff(fields: seq<Field>, m: KeyMap, path: string)
    ensures RewriteFields(fields, m).Some? <==>
      CollectFields(fields, path).Some? && AllMapped(CollectFields(fields, path).value, m)
    decreases fields, 0
  {
    if fields != [] {
      RewriteSucceedsIff(fields[0].value, m, path + "." + fields[0].key);
      RewriteFieldsSucceedIff(fields[1..], m, path);
    }
  }

  // ---------------------------------------------------------------- rewriting commutes with collecting

  function Renamed(r: Reference, m: KeyMap): Reference {
    if r.blob.key in m then r.(blob := m[r.blob.key]) else r
  }

  function RenamedAll(refs: seq<Reference>, m: KeyMap): (r: seq<Reference>)
    ensures |r| == |refs|
  {
    seq(|refs|, i requires 0 <= i < |refs| => Renamed(refs[i], m))
  }

  lemma RenamedConcat(a: seq<Reference>, b: seq<Reference>, m: KeyMap)
    ensures RenamedAll(a + b, m) == RenamedAll(a, m) + RenamedAll(b, m)
  {
  }

  ghost predicate ValidMap(m: KeyMap) {
    forall k :: k in m ==> ValidStored(m[k])
  }

  lemma {:induction false} FindSetBlob(fields: seq<Field>, b: StoredBlob, key: string)
    ensures Find(SetBlob(fields, b), key) == Find(fields, key)
  {
    if fields != [] {
      assert SetBlob(fields, b)[1..] == SetBlob(fields[1..], b);
      FindSetBlob(fields[1..], b, key);
    }
  }

  /** The rewritten record is a reference to the replacement. */
  lemma SetBlobIsBlob(fields: seq<Field>, b: StoredBlob)
    requires HasBlobShape(fields) && ValidStored(b)
    ensures
      var r := SetBlob(fields, b);
      HasBlobShape(r) && ValidBlob(r) && BlobOf(r) == b
  {
    hide SafeKey, IsDigest;
    FindSetBlob(fields, b, "key");
    FindSetBlob(fields, b, "digest");
    FindSetBlob(fields, b, "size");
    ValueOfDecimal(b.size);
    assert Digits(Decimal(b.size));
  }

  lemma {:induction false} FindRewritten(fields: seq<Field>, m: KeyMap, key: string)
    requires RewriteFields(fields, m).Some?
    ensures |RewriteFields(fields, m).value| == |fields|
    ensures Find(RewriteFields(fields, m).value, key) == Find(fields, key)
  {
    hide Rewrite;
    if fields != [] {
      FindRewritten(fields[1..], m, key);
      var r := RewriteFields(fields, m).value;
      assert r[1..] == RewriteFields(fields[1..], m).value;
    }
  }

  /**
   Collecting after rewriting finds the same paths in the same order, each with its key, digest and
   size replaced by the mapped blob's.
   */
  lemma {:induction false} CollectRewritten(v: Json, m: KeyMap, path: string)
    requires Rewrite(v, m).Some? && ValidMap(m)
    ensures Collect(v, path).Some?
    ensures Collect(Rewrite(v, m).value, path) == Some(RenamedAll(Collect(v, path).value, m))
    decreases v, 1
  {
    RewriteSucceedsIff(v, m, path);
    match v
    case Arr(items) => CollectRewrittenItems(items, m, path, 0);
    case Obj(fields) =>
      if HasBlobShape(fields) {
        var b := m[BlobOf(fields).key];
        SetBlobIsBlob(fields, b);
        var refs := Collect(v, path).value;
        assert refs == [Reference(BlobOf(fields), path)];
        assert RenamedAll(refs, m) == [Reference(b, path)];
      } else {
        FindRewritten(fields, m, "key");
        FindRewritten(fields, m, "digest");
        FindRewritten(fields, m, "size");
        CollectRewrittenFields(fields, m, path);
      }
    case _ =>
  }

  lemma {:induction false} CollectRewrittenItems(items: seq<Json>, m: KeyMap, path: string, index: nat)
    requires RewriteItems(items, m).Some? && ValidMap(m)
    ensures CollectItems(items, path, index).Some?
    ensures CollectItems(RewriteItems(items, m).value, path, index) ==
      Some(RenamedAll(CollectItems(items, path, index).value, m))
    decreases items, 0
  {
    if items != [] {
      var here := path + "[" + Decimal(index) + "]";
      CollectRewritten(items[0], m, here);
      CollectRewrittenItems(items[1..], m, path, index + 1);
      RenamedConcat(Collect(items[0], here).value, CollectItems(items[1..], path, index + 1).value, m);
      assert RewriteItems(items, m).value[1..] == RewriteItems(items[1..], m).value;
    }
  }

  lemma {:induction false} CollectRewrittenFields(fields: seq<Field>, m: KeyMap, path: string)
    requires RewriteFields(fields, m).Some? && ValidMap(m)
    ensures CollectFields(fields, path).Some?
    ensures CollectFields(RewriteFields(fields, m).value, path) ==
      Some(RenamedAll(CollectFields(fields, path).value, m))
    decreases fields, 0
  {
    if fields != [] {
      var here := path + "." + fields[0].key;
      CollectRewritten(fields[0].value, m, here);
      CollectRewrittenFields(fields[1..], m, path);
      RenamedConcat(Collect(fields[0].value, here).value, CollectFields(fields[1..], path).value, m);
      assert RewriteFields(fields, m).value[1..] == RewriteFields(fields[1..], m).value;
    }
  }

  // ---------------------------------------------------------------- everything else is verbatim

  /** The state with the key of every reference blanked out. */
  function Blanked(v: Json): Json
    decreases v, 1
  {
    match v
    case Arr(items) => Arr(BlankedItems(items))
    case Obj(fields) =>
      if HasBlobShape(fields) && ValidBlob(fields) then Obj(SetBlob(fields, BlobOf(fields).(key := "")))
      else Obj(BlankedFields(fields))
    case _ => v
  }

  function BlankedItems(items: seq<Json>): seq<Json>
    decreases items, 0
  {
    if items == [] then [] else [Blanked(items[0])] + BlankedItems(items[1..])
  }

  function BlankedFields(fields: seq<Field>): seq<Field>
    decreases fields, 0
  {
    if fields == [] then [] else [Field(fields[0].key, Blanked(fields[0].value))] + BlankedFields(fields[1..])
  }

  /** The map sends every reference to a blob with the same digest and size. */
  ghost predicate KeepsContent(refs: seq<Reference>, m: KeyMap) {
    forall r :: r in refs && r.blob.key in m ==>
      m[r.blob.key].digest == r.blob.digest && m[r.blob.key].size == r.blob.size
  }

  lemma SetBlobTwice(fields: seq<Field>, b: StoredBlob, c: StoredBlob)
    ensures SetBlob(SetBlob(fields, b), c) == SetBlob(fields, c)
  {
  }

  /** Rewriting changes nothing but the keys of references. */
  lemma {:induction false} RewriteKeepsRest(v: Json, m: KeyMap, path: string)
    requires Rewrite(v, m).Some? && ValidMap(m)
    requires Collect(v, path).Some? && KeepsContent(Collect(v, path).value, m)
    ensures Blanked(Rewrite(v, m).value) == Blanked(v)
    decreases v, 1
  {
    match v
    case Arr(items) => RewriteKeepsItems(items, m, path, 0);
    case Obj(fields) =>
      if HasBlobShape(fields) {
        var was, b := BlobOf(fields), m[BlobOf(fields).key];
        assert Reference(was, path) in Collect(v, path).value;
        SetBlobIsBlob(fields, b);
        SetBlobTwice(fields, b, b.(key := ""));
        assert b.(key := "") == was.(key := "");
      } else {
        FindRewritten(fields, m, "key");
        FindRewritten(fields, m, "digest");
        FindRewritten(fields, m, "size");
        RewriteKeepsFields(fields, m, path);
      }
    case _ =>
  }

  lemma {:induction false} RewriteKeepsItems(items: seq<Json>, m: KeyMap, path: string, index: nat)
    requires RewriteItems(items, m).Some? && ValidMap(m)
    requires CollectItems(items, path, index).Some? && KeepsContent(CollectItems(items, path, index).value, m)
    ensures BlankedItems(RewriteItems(items, m).value) == BlankedItems(items)
    decreases items, 0
  {
    if items != [] {
      RewriteKeepsRest(items[0], m, path + "[" + Decimal(index) + "]");
      RewriteKeepsItems(items[1..], m, path, index + 1);
      assert RewriteItems(items, m).value[1..] == RewriteItems(items[1..], m).value;
    }
  }

  lemma {:induction false} RewriteKeepsFields(fields: seq<Field>, m: KeyMap, path: string)
    requires RewriteFields(fields, m).Some? && ValidMap(m)
    requires CollectFields(fields, path).Some? && KeepsContent(CollectFields(fields, path).value, m)
    ensures BlankedFields(RewriteFields(fields, m).value) == BlankedFields(fields)
    decreases fields, 0
  {
    if fields != [] {
      RewriteKeepsRest(fields[0].value, m, path + "." + fields[0].key);
      RewriteKeepsFields(fields[1..], m, path);
      assert RewriteFields(fields, m).value[1..] == RewriteFields(fields[1..], m).value;
    }
  }
}
