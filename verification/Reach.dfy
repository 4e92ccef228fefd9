/** The nodes of a JSON value, reached child by child, and what they say about organizations and blobs. */
module Reach {
  import opened Options
  import opened Numerals
  import opened Json
  import opened CanonicalJson
  import opened Blobs
  import opened BlobOrder
  import opened PathRules

  function Children(v: Json): (r: seq<Json>) {
    match v
    case Arr(items) => items
    case Obj(fields) => seq(|fields|, i requires 0 <= i < |fields| => fields[i].value)
    case _ => []
  }

  /** The node that a list of child positions leads to. */
  ghost function Node(v: Json, route: seq<nat>): Option<Json>
    decreases |route|
  {
    if route == [] then Some(v)
    else if route[0] < |Children(v)| then Node(Children(v)[route[0]], route[1..])
    else None
  }

  lemma NodeBelow(v: Json, i: nat, route: seq<nat>)
    requires i < |Children(v)|
    ensures Node(v, [i] + route) == Node(Children(v)[i], route)
  {
    assert ([i] + route)[1..] == route;
  }

  lemma ChildIsSmaller(v: Json, i: nat)
    requires i < |Children(v)|
    ensures Children(v)[i] < v
  {
  }

  /** The value a record has under a key: its first, when a key is repeated. */
  ghost predicate FieldIs(v: Json, key: string, w: Json) {
    v.Obj? && exists i :: 0 <= i < |v.fields| && v.fields[i] == Field(key, w) && forall j :: 0 <= j < i ==> v.fields[j].key != key
  }

  lemma {:induction false} FindIsFirst(fields: seq<Field>, key: string, i: nat)
    requires i < |fields| && fields[i].key == key && forall j :: 0 <= j < i ==> fields[j].key != key
    ensures Find(fields, key) == i
  {
    if i > 0 {
      forall j | 0 <= j < i - 1
        ensures fields[1..][j].key != key
      {
        assert fields[1..][j] == fields[j + 1];
      }
      FindIsFirst(fields[1..], key, i - 1);
    }
  }

  lemma {:induction false} FoundIsFirst(fields: seq<Field>, key: string)
    requires Find(fields, key) >= 0
    ensures forall j :: 0 <= j < Find(fields, key) ==> fields[j].key != key
  {
    if fields[0].key != key {
      FoundIsFirst(fields[1..], key);
      forall j | 0 <= j < Find(fields, key)
        ensures fields[j].key != key
      {
        if j > 0 { assert fields[1..][j - 1] == fields[j]; }
      }
    }
  }

  lemma FieldIsIff(fields: seq<Field>, key: string, w: Json)
    ensures FieldIs(Obj(fields), key, w) <==> Has(fields, key) && Get(fields, key) == w
  {
    hide Find;
    if FieldIs(Obj(fields), key, w) {
      var i :| 0 <= i < |fields| && fields[i] == Field(key, w) && forall j :: 0 <= j < i ==> fields[j].key != key;
      FindIsFirst(fields, key, i);
    }
    if Has(fields, key) {
      FoundIsFirst(fields, key);
      assert fields[Find(fields, key)] == Field(key, Get(fields, key));
    }
  }

  // ---------------------------------------------------------------- organizations

  /** Every record anywhere in the value that names an organization names this one. */
  ghost predicate OnlyFrom(v: Json, organization: string) {
    forall route, w :: Node(v, route).Some? && FieldIs(Node(v, route).value, "organizationId", w) ==> w == Str(organization)
  }

  lemma OnlyFromSplits(v: Json, organization: string)
    ensures OnlyFrom(v, organization) <==>
      && (forall w :: FieldIs(v, "organizationId", w) ==> w == Str(organization))
      && (forall i :: 0 <= i < |Children(v)| ==> OnlyFrom(Children(v)[i], organization))
  {
    hide FieldIs, Children;
    if OnlyFrom(v, organization) {
      assert Node(v, []) == Some(v);
      forall i | 0 <= i < |Children(v)|
        ensures OnlyFrom(Children(v)[i], organization)
      {
        forall route, w | Node(Children(v)[i], route).Some? && FieldIs(Node(Children(v)[i], route).value, "organizationId", w)
          ensures w == Str(organization)
        {
          NodeBelow(v, i, route);
          assert Node(v, [i] + route).Some?;
        }
      }
    }
    if (forall w :: FieldIs(v, "organizationId", w) ==> w == Str(organization))
      && (forall i :: 0 <= i < |Children(v)| ==> OnlyFrom(Children(v)[i], organization)) {
      forall route, w | Node(v, route).Some? && FieldIs(Node(v, route).value, "organizationId", w)
        ensures w == Str(organization)
      {
        if route != [] {
          assert OnlyFrom(Children(v)[route[0]], organization);
          assert Node(Children(v)[route[0]], route[1..]) == Node(v, route);
        }
      }
    }
  }

  // ---------------------------------------------------------------- blobs

  /** A record with all three fields of a blob. */
  ghost predicate BlobShaped(v: Json) {
    exists k, d, n :: FieldIs(v, "key", k) && FieldIs(v, "digest", d) && FieldIs(v, "size", n)
  }

  lemma BlobShapedIff(fields: seq<Field>)
    ensures BlobShaped(Obj(fields)) <==> HasBlobShape(fields)
  {
    hide FieldIs, Find;
    if HasBlobShape(fields) {
      FieldIsIff(fields, "key", Get(fields, "key"));
      FieldIsIff(fields, "digest", Get(fields, "digest"));
      FieldIsIff(fields, "size", Get(fields, "size"));
    }
    if k, d, n :| FieldIs(Obj(fields), "key", k) && FieldIs(Obj(fields), "digest", d) && FieldIs(Obj(fields), "size", n) {
      FieldIsIff(fields, "key", k);
      FieldIsIff(fields, "digest", d);
      FieldIsIff(fields, "size", n);
    }
  }

  /** The route leads to a blob-shaped record, and passes none on its way. */
  ghost predicate Outermost(v: Json, route: seq<nat>) {
    && Node(v, route).Some? && BlobShaped(Node(v, route).value)
    && forall n :: 0 <= n < |route| && Node(v, route[..n]).Some? ==> !BlobShaped(Node(v, route[..n]).value)
  }

  lemma OutermostSplits(v: Json, route: seq<nat>)
    ensures Outermost(v, route) <==>
      if route == [] then BlobShaped(v)
      else !BlobShaped(v) && route[0] < |Children(v)| && Outermost(Children(v)[route[0]], route[1..])
  {
    hide BlobShaped, Children;
    if route != [] {
      assert route[..0] == [] && Node(v, []) == Some(v);
      if route[0] < |Children(v)| {
        var w, rest := Children(v)[route[0]], route[1..];
        forall n | 0 <= n < |rest|
          ensures Node(v, route[..n + 1]) == Node(w, rest[..n])
        {
          assert route[..n + 1][1..] == rest[..n];
        }
        if Outermost(v, route) {
          forall n | 0 <= n < |rest| && Node(w, rest[..n]).Some?
            ensures !BlobShaped(Node(w, rest[..n]).value)
          {
            assert Node(v, route[..n + 1]) == Node(w, rest[..n]);
          }
        }
        if !BlobShaped(v) && Outermost(w, rest) {
          forall n | 0 <= n < |route| && Node(v, route[..n]).Some?
            ensures !BlobShaped(Node(v, route[..n]).value)
          {
            if n > 0 { assert Node(v, route[..n - 1 + 1]) == Node(w, rest[..n - 1]); }
          }
        }
      }
    }
  }

  /** How a route is written: `.key` for a field, `[n]` for an element. */
  function StepText(v: Json, i: nat): string
    requires i < |Children(v)|
  {
    if v.Obj? then "." + v.fields[i].key else "[" + Decimal(i) + "]"
  }

  ghost function Spelled(v: Json, route: seq<nat>): string
    decreases |route|
  {
    if route == [] || route[0] >= |Children(v)| then ""
    else StepText(v, route[0]) + Spelled(Children(v)[route[0]], route[1..])
  }

  /** The reference a blob-shaped record stands for, when its three fields are good. */
  ghost predicate IsReferenceAt(v: Json, route: seq<nat>, root: string, r: Reference) {
    && Outermost(v, route) && r.path == root + Spelled(v, route)
    && FieldIs(Node(v, route).value, "key", Str(r.blob.key)) && FieldIs(Node(v, route).value, "digest", Str(r.blob.digest))
    && FieldIs(Node(v, route).value, "size", Num(Decimal(r.blob.size)))
  }

  /** A storage key: bounded, without backslash, colon or NUL, and with no empty piece, `.` or `..` between slashes. */
  ghost predicate StorageKey(s: string) {
    && 0 < |s| <= 4096
    && (forall c :: c in s ==> c != '\\' && c != ':' && c != '\0')
    && !IsPiece(s, '/', "") && !IsPiece(s, '/', ".") && !IsPiece(s, '/', "..")
  }

  lemma StorageKeyIff(s: string)
    ensures SafeKey(s) <==> StorageKey(s)
  {
    hide IsPiece;
    if s != "" { EmptyPieceIff(s, '/'); }
    SplitIsPieces(s, '/');
  }

  /** The record's fields name a blob by a safe key, a digest and a size. */
  ghost predicate GoodBlob(v: Json) {
    exists k, d, n :: GoodBlobFields(v, k, d, n)
  }

  ghost predicate GoodBlobFields(v: Json, k: string, d: string, n: nat) {
    && FieldIs(v, "key", Str(k)) && StorageKey(k) && FieldIs(v, "digest", Str(d)) && IsDigest(d)
    && FieldIs(v, "size", Num(Decimal(n))) && n <= MAX_SAFE_INTEGER
  }

  lemma BlobFields(fields: seq<Field>, key: string, digest: string, size: nat)
    requires HasBlobShape(fields)
    ensures ValidBlob(fields) && BlobOf(fields) == StoredBlob(key, digest, size) <==> GoodBlobFields(Obj(fields), key, digest, size)
  {
    hide FieldIs, Find, SafeKey, StorageKey, IsDigest;
    StorageKeyIff(key);
    FieldIsIff(fields, "key", Str(key));
    FieldIsIff(fields, "digest", Str(digest));
    FieldIsIff(fields, "size", Num(Decimal(size)));
    ValueOfDecimal(size);
  }

  lemma GoodBlobIff(fields: seq<Field>)
    requires HasBlobShape(fields)
    ensures ValidBlob(fields) <==> GoodBlob(Obj(fields))
  {
    hide FieldIs, Find, SafeKey, IsDigest, GoodBlobFields;
    if ValidBlob(fields) {
      var b := BlobOf(fields);
      BlobFields(fields, b.key, b.digest, b.size);
    }
    if k, d, n :| GoodBlobFields(Obj(fields), k, d, n) { BlobFields(fields, k, d, n); }
  }

  // ---------------------------------------------------------------- collecting, said of the nodes

  /** What is collected below one child. */
  ghost function Below(v: Json, root: string, i: nat): Option<seq<Reference>>
    requires i < |Children(v)|
  {
    Collect(Children(v)[i], root + StepText(v, i))
  }

  ghost predicate InBelow(v: Json, root: string, r: Reference) {
    exists i :: 0 <= i < |Children(v)| && Below(v, root, i).Some? && r in Below(v, root, i).value
  }

  /** What is collected from an element of a list that starts at `index`. */
  ghost function ItemRefs(items: seq<Json>, path: string, index: nat, i: nat): Option<seq<Reference>>
    requires i < |items|
  {
    Collect(items[i], path + "[" + Decimal(index + i) + "]")
  }

  ghost predicate InItems(items: seq<Json>, path: string, index: nat, r: Reference) {
    exists i :: 0 <= i < |items| && ItemRefs(items, path, index, i).Some? && r in ItemRefs(items, path, index, i).value
  }

  lemma {:induction false} CollectItemsSpec(items: seq<Json>, path: string, index: nat)
    ensures CollectItems(items, path, index).Some? <==> forall i :: 0 <= i < |items| ==> ItemRefs(items, path, index, i).Some?
    ensures CollectItems(items, path, index).Some? ==>
      forall r :: r in CollectItems(items, path, index).value <==> InItems(items, path, index, r)
  {
    hide Collect;
    if items != [] {
      var rest, next := items[1..], index + 1;
      CollectItemsSpec(rest, path, next);
      forall i | 0 <= i < |rest|
        ensures ItemRefs(rest, path, next, i) == ItemRefs(items, path, index, i + 1)
      {
      }
      if forall i :: 0 <= i < |items| ==> ItemRefs(items, path, index, i).Some? {
        assert ItemRefs(items, path, index, 0).Some?;
        forall i | 0 <= i < |rest|
          ensures ItemRefs(rest, path, next, i).Some?
        {
          assert ItemRefs(items, path, index, i + 1).Some?;
        }
      }
      if CollectItems(items, path, index).Some? {
        forall i | 0 <= i < |items|
          ensures ItemRefs(items, path, index, i).Some?
        {
          if i > 0 { assert ItemRefs(rest, path, next, i - 1).Some?; }
        }
        forall r
          ensures r in CollectItems(items, path, index).value <==> InItems(items, path, index, r)
        {
          ItemsSplit(items, path, index, r);
        }
      }
    }
  }

  lemma ItemsSplit(items: seq<Json>, path: string, index: nat, r: Reference)
    requires items != [] && ItemRefs(items, path, index, 0).Some?
    ensures InItems(items, path, index, r) <==> r in ItemRefs(items, path, index, 0).value || InItems(items[1..], path, index + 1, r)
  {
    hide Collect;
    var rest := items[1..];
    if InItems(items, path, index, r) {
      var i :| 0 <= i < |items| && ItemRefs(items, path, index, i).Some? && r in ItemRefs(items, path, index, i).value;
      if i > 0 { assert ItemRefs(rest, path, index + 1, i - 1) == ItemRefs(items, path, index, i); }
    }
    if InItems(rest, path, index + 1, r) {
      var i :| 0 <= i < |rest| && ItemRefs(rest, path, index + 1, i).Some? && r in ItemRefs(rest, path, index + 1, i).value;
      assert ItemRefs(rest, path, index + 1, i) == ItemRefs(items, path, index, i + 1);
    }
  }

  /** Outside blobs, what is collected is what is collected below the children. */
  lemma CollectChildren(v: Json, root: string)
    requires !BlobShaped(v)
    ensures Collect(v, root).Some? <==> forall i :: 0 <= i < |Children(v)| ==> Below(v, root, i).Some?
    ensures Collect(v, root).Some? ==> forall r :: r in Collect(v, root).value <==> InBelow(v, root, r)
  {
    hide BlobShaped, HasBlobShape;
    match v
    case Arr(items) =>
      CollectItemsSpec(items, root, 0);
      forall i | 0 <= i < |items|
        ensures Below(v, root, i) == ItemRefs(items, root, 0, i)
      {
        assert root + StepText(v, i) == root + "[" + Decimal(0 + i) + "]";
      }
      forall r
        ensures InItems(items, root, 0, r) <==> InBelow(v, root, r)
      {
        SameItems(v, root, r);
      }
    case Obj(fields) =>
      BlobShapedIff(fields);
      CollectFieldsSpec(fields, root);
      forall i | 0 <= i < |fields|
        ensures Below(v, root, i) == FieldRefs(fields[i], root)
      {
        assert root + StepText(v, i) == root + "." + fields[i].key;
      }
      forall r
        ensures BelowField(fields, root, r) <==> InBelow(v, root, r)
      {
        SameFields(v, root, r);
      }
    case _ =>
  }

  lemma SameItems(v: Json, root: string, r: Reference)
    requires v.Arr? && forall i :: 0 <= i < |v.items| ==> Below(v, root, i) == ItemRefs(v.items, root, 0, i)
    ensures InItems(v.items, root, 0, r) <==> InBelow(v, root, r)
  {
    hide Below, ItemRefs;
    if InBelow(v, root, r) {
      var i :| 0 <= i < |Children(v)| && Below(v, root, i).Some? && r in Below(v, root, i).value;
      assert ItemRefs(v.items, root, 0, i).Some?;
    }
    if InItems(v.items, root, 0, r) {
      var i :| 0 <= i < |v.items| && ItemRefs(v.items, root, 0, i).Some? && r in ItemRefs(v.items, root, 0, i).value;
      assert Below(v, root, i).Some?;
    }
  }

  lemma SameFields(v: Json, root: string, r: Reference)
    requires v.Obj? && forall i :: 0 <= i < |v.fields| ==> Below(v, root, i) == FieldRefs(v.fields[i], root)
    ensures BelowField(v.fields, root, r) <==> InBelow(v, root, r)
  {
    hide Below, FieldRefs;
    if InBelow(v, root, r) {
      var i :| 0 <= i < |Children(v)| && Below(v, root, i).Some? && r in Below(v, root, i).value;
      assert FieldRefs(v.fields[i], root).Some?;
    }
    if BelowField(v.fields, root, r) {
      var i :| 0 <= i < |v.fields| && FieldRefs(v.fields[i], root).Some? && r in FieldRefs(v.fields[i], root).value;
      assert Below(v, root, i).Some?;
    }
  }

  /** Every outermost blob-shaped record is a good blob. */
  ghost predicate BlobsAreGood(v: Json) {
    forall route :: Outermost(v, route) ==> GoodBlob(Node(v, route).value)
  }

  ghost predicate ReferredTo(v: Json, root: string, r: Reference) {
    exists route :: IsReferenceAt(v, route, root, r)
  }

  lemma BlobsBelow(v: Json)
    requires !BlobShaped(v)
    ensures BlobsAreGood(v) <==> forall i :: 0 <= i < |Children(v)| ==> BlobsAreGood(Children(v)[i])
  {
    hide BlobShaped, GoodBlob, Outermost, Children;
    if BlobsAreGood(v) {
      forall i, route | 0 <= i < |Children(v)| && Outermost(Children(v)[i], route)
        ensures Node(Children(v)[i], route).Some? && GoodBlob(Node(Children(v)[i], route).value)
      {
        assert ([i] + route)[1..] == route;
        OutermostSplits(v, [i] + route);
        NodeBelow(v, i, route);
        OutermostHasNode(Children(v)[i], route);
      }
    }
    if forall i :: 0 <= i < |Children(v)| ==> BlobsAreGood(Children(v)[i]) {
      forall route | Outermost(v, route)
        ensures Node(v, route).Some? && GoodBlob(Node(v, route).value)
      {
        OutermostSplits(v, route);
        OutermostHasNode(v, route);
        assert BlobsAreGood(Children(v)[route[0]]);
      }
    }
  }

  lemma OutermostHasNode(v: Json, route: seq<nat>)
    requires Outermost(v, route)
    ensures Node(v, route).Some?
  {
  }

  lemma ReferredBelow(v: Json, root: string, r: Reference)
    requires !BlobShaped(v)
    ensures ReferredTo(v, root, r) <==> exists i :: 0 <= i < |Children(v)| && ReferredTo(Children(v)[i], root + StepText(v, i), r)
  {
    hide BlobShaped, Outermost, Children, FieldIs, StepText;
    if ReferredTo(v, root, r) {
      var route :| IsReferenceAt(v, route, root, r);
      OutermostSplits(v, route);
      var i := route[0];
      assert root + Spelled(v, route) == root + StepText(v, i) + Spelled(Children(v)[i], route[1..]);
      assert IsReferenceAt(Children(v)[i], route[1..], root + StepText(v, i), r);
    }
    if i :| 0 <= i < |Children(v)| && ReferredTo(Children(v)[i], root + StepText(v, i), r) {
      var rest :| IsReferenceAt(Children(v)[i], rest, root + StepText(v, i), r);
      var route := [i] + rest;
      assert route[1..] == rest;
      OutermostSplits(v, route);
      assert root + Spelled(v, route) == root + StepText(v, i) + Spelled(Children(v)[i], rest);
      assert IsReferenceAt(v, route, root, r);
    }
  }

  /**
   The references of a value are exactly its outermost blob-shaped records, each with its three fields and
   the text of its route; collecting fails exactly when one of them is no good blob.
   */
  lemma {:induction false} CollectIff(v: Json, root: string)
    ensures Collect(v, root).Some? <==> BlobsAreGood(v)
    ensures Collect(v, root).Some? ==> forall r :: r in Collect(v, root).value <==> ReferredTo(v, root, r)
  {
    hide BlobShaped, GoodBlob, Outermost, Collect, Children, StepText, ReferredTo, BlobsAreGood;
    if BlobShaped(v) {
      CollectBlob(v, root);
    } else {
      forall i | 0 <= i < |Children(v)|
        ensures Below(v, root, i).Some? <==> BlobsAreGood(Children(v)[i])
        ensures Below(v, root, i).Some? ==>
          forall r :: r in Below(v, root, i).value <==> ReferredTo(Children(v)[i], root + StepText(v, i), r)
      {
        ChildIsSmaller(v, i);
        CollectIff(Children(v)[i], root + StepText(v, i));
      }
      CollectChildren(v, root);
      BlobsBelow(v);
      if Collect(v, root).Some? {
        forall r
          ensures r in Collect(v, root).value <==> ReferredTo(v, root, r)
        {
          ReferredBelow(v, root, r);
          assert forall i :: 0 <= i < |Children(v)| ==> Below(v, root, i).Some?;
        }
      }
    }
  }

  lemma CollectBlob(v: Json, root: string)
    requires BlobShaped(v)
    ensures Collect(v, root).Some? <==> BlobsAreGood(v)
    ensures Collect(v, root).Some? ==> forall r :: r in Collect(v, root).value <==> ReferredTo(v, root, r)
  {
    hide FieldIs, Find, SafeKey, IsDigest, GoodBlobFields, Outermost, Children, ValidBlob, HasBlobShape;
    assert v.Obj? by { ShapedIsRecord(v); }
    BlobShapedIff(v.fields);
    GoodBlobIff(v.fields);
    forall route
      ensures Outermost(v, route) <==> route == []
    {
      OutermostSplits(v, route);
    }
    assert Node(v, []) == Some(v) && Spelled(v, []) == "" && root + "" == root;
    if Collect(v, root).Some? {
      var b := BlobOf(v.fields);
      BlobFields(v.fields, b.key, b.digest, b.size);
      GoodFields(v, b);
      forall r
        ensures r in Collect(v, root).value <==> ReferredTo(v, root, r)
      {
        if r == Reference(b, root) { assert IsReferenceAt(v, [], root, r); }
        if route :| IsReferenceAt(v, route, root, r) { OneField(v, b, r); }
      }
    }
  }

  lemma ShapedIsRecord(v: Json)
    requires BlobShaped(v)
    ensures v.Obj?
  {
  }

  lemma GoodFields(v: Json, b: StoredBlob)
    requires GoodBlobFields(v, b.key, b.digest, b.size)
    ensures FieldIs(v, "key", Str(b.key)) && FieldIs(v, "digest", Str(b.digest)) && FieldIs(v, "size", Num(Decimal(b.size)))
  {
  }

  lemma OneField(v: Json, b: StoredBlob, r: Reference)
    requires v.Obj?
    requires FieldIs(v, "key", Str(b.key)) && FieldIs(v, "digest", Str(b.digest)) && FieldIs(v, "size", Num(Decimal(b.size)))
    requires FieldIs(v, "key", Str(r.blob.key)) && FieldIs(v, "digest", Str(r.blob.digest))
    requires FieldIs(v, "size", Num(Decimal(r.blob.size)))
    ensures r.blob == b
  {
    hide FieldIs, Find;
    FieldIsIff(v.fields, "key", Str(b.key));
    FieldIsIff(v.fields, "key", Str(r.blob.key));
    FieldIsIff(v.fields, "digest", Str(b.digest));
    FieldIsIff(v.fields, "digest", Str(r.blob.digest));
    FieldIsIff(v.fields, "size", Num(Decimal(b.size)));
    FieldIsIff(v.fields, "size", Num(Decimal(r.blob.size)));
    DecimalInjective(b.size, r.blob.size);
  }
}
