/** References do not depend on the order of object keys, nor on the revision field. */
module BlobOrder {
  import opened Options
  import opened Numerals
  import opened Json
  import opened CanonicalJson
  import opened Blobs

  // ---------------------------------------------------------------- members of a collection

  /** `r` is found below some field. */
  ghost predicate BelowField(fields: seq<Field>, path: string, r: Reference) {
    exists i :: 0 <= i < |fields| && FieldRefs(fields[i], path).Some? && r in FieldRefs(fields[i], path).value
  }

  function FieldRefs(f: Field, path: string): Option<seq<Reference>> {
    Collect(f.value, path + "." + f.key)
  }

  lemma {:induction false} CollectFieldsSpec(fields: seq<Field>, path: string)
    ensures CollectFields(fields, path).Some? <==> forall i :: 0 <= i < |fields| ==> FieldRefs(fields[i], path).Some?
    ensures CollectFields(fields, path).Some? ==>
      forall r :: r in CollectFields(fields, path).value <==> BelowField(fields, path, r)
  {
    hide Collect;
    if fields != [] {
      var rest := fields[1..];
      CollectFieldsSpec(rest, path);
      assert forall i :: 0 <= i < |rest| ==> rest[i] == fields[i + 1];
      if CollectFields(fields, path).Some? {
        forall r
          ensures r in CollectFields(fields, path).value <==> BelowField(fields, path, r)
        {
          if r in FieldRefs(fields[0], path).value { assert BelowField(fields, path, r); }
          if BelowField(rest, path, r) {
            var i :| 0 <= i < |rest| && FieldRefs(rest[i], path).Some? && r in FieldRefs(rest[i], path).value;
            assert fields[i + 1] == rest[i];
          }
          if BelowField(fields, path, r) {
            var i :| 0 <= i < |fields| && FieldRefs(fields[i], path).Some? && r in FieldRefs(fields[i], path).value;
            if i > 0 { assert rest[i - 1] == fields[i]; }
          }
        }
      }
      if forall i :: 0 <= i < |fields| ==> FieldRefs(fields[i], path).Some? {
        assert FieldRefs(fields[0], path).Some?;
        forall i | 0 <= i < |rest|
          ensures FieldRefs(rest[i], path).Some?
        {
          assert FieldRefs(fields[i + 1], path).Some?;
        }
      }
    }
  }

  // ---------------------------------------------------------------- key order

  /** Both find the same references, or both fail. */
  ghost predicate SameRefs(a: Option<seq<Reference>>, b: Option<seq<Reference>>) {
    && (a.Some? <==> b.Some?)
    && (a.Some? ==> forall r :: r in a.value <==> r in b.value)
  }

  lemma EquivalentHas(a: seq<Field>, b: seq<Field>, key: string)
    requires Equivalent(Obj(a), Obj(b))
    ensures Has(a, key) <==> Has(b, key)
    ensures Has(a, key) ==> Find(b, a[Find(a, key)].key) == Find(b, key) && Equivalent(Get(a, key), Get(b, key))
  {
    if Has(a, key) {
      var i := Find(a, key);
      assert a[i].key == key;
    }
    if Has(b, key) {
      var j := Find(b, key);
      assert b[j].key == key;
      assert Find(a, b[j].key) >= 0;
    }
  }

  lemma LeafEquivalent(v: Json, w: Json)
    requires Equivalent(v, w)
    ensures v.Str? ==> w == v
    ensures v.Num? ==> w == v
    ensures w.Str? ==> w == v
    ensures w.Num? ==> w == v
  {
  }

  /** The same record in another key order is the same reference, or is none. */
  lemma EquivalentBlob(a: seq<Field>, b: seq<Field>)
    requires Equivalent(Obj(a), Obj(b))
    ensures HasBlobShape(a) <==> HasBlobShape(b)
    ensures HasBlobShape(a) ==> (ValidBlob(a) <==> ValidBlob(b)) && (ValidBlob(a) ==> BlobOf(a) == BlobOf(b))
  {
    hide Equivalent, SafeKey, IsDigest, SafeSize;
    EquivalentHas(a, b, "key");
    EquivalentHas(a, b, "digest");
    EquivalentHas(a, b, "size");
    if HasBlobShape(a) {
      LeafEquivalent(Get(a, "key"), Get(b, "key"));
      LeafEquivalent(Get(a, "digest"), Get(b, "digest"));
      LeafEquivalent(Get(a, "size"), Get(b, "size"));
    }
  }

  /** Values equal up to key order hold the same references at the same paths. */
  lemma {:induction false} CollectIgnoresKeyOrder(v: Json, w: Json, path: string)
    requires WellFormed(v) && WellFormed(w) && Equivalent(v, w)
    ensures SameRefs(Collect(v, path), Collect(w, path))
    decreases v, 1
  {
    hide HasBlobShape, ValidBlob, BlobOf;
    match v
    case Arr(items) => CollectItemsIgnoreKeyOrder(items, w.items, path, 0);
    case Obj(fields) =>
      EquivalentBlob(fields, w.fields);
      if !HasBlobShape(fields) {
        forall i | 0 <= i < |fields|
          ensures
            var j := Find(w.fields, fields[i].key);
            j >= 0 && SameRefs(FieldRefs(fields[i], path), FieldRefs(w.fields[j], path))
        {
          CollectIgnoresKeyOrder(fields[i].value, w.fields[Find(w.fields, fields[i].key)].value, path + "." + fields[i].key);
        }
        FieldsIgnoreKeyOrder(fields, w.fields, path);
      }
    case _ =>
  }

  lemma {:induction false} CollectItemsIgnoreKeyOrder(a: seq<Json>, b: seq<Json>, path: string, index: nat)
    requires |a| == |b|
    requires forall i :: 0 <= i < |a| ==> WellFormed(a[i]) && WellFormed(b[i]) && Equivalent(a[i], b[i])
    ensures SameRefs(CollectItems(a, path, index), CollectItems(b, path, index))
    decreases a, 0
  {
    hide WellFormed, Equivalent, Collect;
    if a != [] {
      CollectIgnoresKeyOrder(a[0], b[0], path + "[" + Decimal(index) + "]");
      CollectItemsIgnoreKeyOrder(a[1..], b[1..], path, index + 1);
    }
  }

  lemma FieldsIgnoreKeyOrder(a: seq<Field>, b: seq<Field>, path: string)
    requires DistinctFields(b)
    requires forall i :: 0 <= i < |a| ==>
      var j := Find(b, a[i].key);
      j >= 0 && SameRefs(FieldRefs(a[i], path), FieldRefs(b[j], path))
    requires forall j :: 0 <= j < |b| ==> Find(a, b[j].key) >= 0
    ensures SameRefs(CollectFields(a, path), CollectFields(b, path))
  {
    hide FieldRefs;
    CollectFieldsSpec(a, path);
    CollectFieldsSpec(b, path);
    forall j | 0 <= j < |b|
      ensures
        var i := Find(a, b[j].key);
        i >= 0 && SameRefs(FieldRefs(a[i], path), FieldRefs(b[j], path))
    {
      var i := Find(a, b[j].key);
      assert Find(b, a[i].key) == j;
    }
    forall r
      ensures BelowField(a, path, r) <==> BelowField(b, path, r)
    {
      if BelowField(a, path, r) {
        var i :| 0 <= i < |a| && FieldRefs(a[i], path).Some? && r in FieldRefs(a[i], path).value;
        var j := Find(b, a[i].key);
        assert r in FieldRefs(b[j], path).value;
      }
      if BelowField(b, path, r) {
        var j :| 0 <= j < |b| && FieldRefs(b[j], path).Some? && r in FieldRefs(b[j], path).value;
        var i := Find(a, b[j].key);
        assert r in FieldRefs(a[i], path).value;
      }
    }
  }

  // ---------------------------------------------------------------- the revision field

  const REVISION := "metadataRevision"

  /** `stateRevision`: an absent field counts as zero. */
  function Revision(v: Json): Json {
    if v.Obj? && Has(v.fields, REVISION) then Get(v.fields, REVISION) else Num("0")
  }

  /** The field is there afterwards: an absent one is given the value `n`. */
  function SetRevision(v: Json, n: nat): Json {
    if v.Obj? && !Has(v.fields, REVISION) then Obj(v.fields + [Field(REVISION, Num(Decimal(n)))]) else v
  }

  function DropRevision(fields: seq<Field>): seq<Field> {
    if fields == [] then []
    else (if fields[0].key == REVISION then [] else [fields[0]]) + DropRevision(fields[1..])
  }

  /** `withoutRevision`. */
  function WithoutRevision(v: Json): Json {
    if v.Obj? then Obj(DropRevision(v.fields)) else v
  }

  lemma {:induction false} FindAppended(fields: seq<Field>, f: Field, key: string)
    requires f.key != key
    ensures Find(fields + [f], key) == Find(fields, key)
  {
    var all := fields + [f];
    if fields == [] {
      assert all == [f] && all[1..] == [];
    } else {
      assert all[1..] == fields[1..] + [f];
      FindAppended(fields[1..], f, key);
    }
  }

  lemma RevisionFieldIsPlain()
    ensures REVISION != "key" && REVISION != "digest" && REVISION != "size"
  {
    assert |REVISION| == 16;
  }

  lemma {:induction false} CollectAppended(fields: seq<Field>, f: Field, path: string)
    requires FieldRefs(f, path) == Some([])
    ensures CollectFields(fields + [f], path) == CollectFields(fields, path)
  {
    hide Collect;
    var all := fields + [f];
    if fields == [] {
      assert all[0] == f && all[1..] == [];
      var none: seq<Reference> := [];
      assert none + none == none;
    } else {
      assert all[1..] == fields[1..] + [f];
      CollectAppended(fields[1..], f, path);
    }
  }

  lemma CollectSetRevision(v: Json, n: nat, path: string)
    ensures Collect(SetRevision(v, n), path) == Collect(v, path)
  {
    hide HasBlobShape, ValidBlob, BlobOf;
    if v.Obj? && !Has(v.fields, REVISION) {
      var f := Field(REVISION, Num(Decimal(n)));
      BlobAppended(v.fields, f);
      assert FieldRefs(f, path) == Some([]);
      CollectAppended(v.fields, f, path);
    }
  }

  lemma {:induction false} DropAppended(fields: seq<Field>, f: Field)
    requires f.key == REVISION
    ensures DropRevision(fields + [f]) == DropRevision(fields)
  {
    var all := fields + [f];
    if fields == [] {
      assert all[1..] == [];
    } else {
      assert all[1..] == fields[1..] + [f];
      DropAppended(fields[1..], f);
    }
  }

  lemma SetRevisionSpec(v: Json, n: nat)
    ensures WithoutRevision(SetRevision(v, n)) == WithoutRevision(v)
    ensures v.Obj? ==> Revision(SetRevision(v, n)) == if Has(v.fields, REVISION) then Revision(v) else Num(Decimal(n))
    ensures WellFormed(v) ==> WellFormed(SetRevision(v, n))
  {
    hide WellFormed;
    if v.Obj? && !Has(v.fields, REVISION) {
      var f := Field(REVISION, Num(Decimal(n)));
      DropAppended(v.fields, f);
      var all := v.fields + [f];
      assert all[|v.fields|].key == REVISION;
      assert Find(all, REVISION) == |v.fields|;
      if WellFormed(v) { AppendWellFormed(v.fields, f); }
    }
  }

  lemma AppendWellFormed(fields: seq<Field>, f: Field)
    requires WellFormed(Obj(fields)) && !Has(fields, f.key) && f.value.Num? && Digits(f.value.text)
    ensures WellFormed(Obj(fields + [f]))
  {
    assert WellFormed(f.value);
  }

  lemma {:induction false} DropRevisionSpec(fields: seq<Field>)
    ensures forall f :: f in DropRevision(fields) <==> f in fields && f.key != REVISION
  {
    if fields != [] {
      DropRevisionSpec(fields[1..]);
      assert fields == [fields[0]] + fields[1..];
    }
  }

  lemma {:induction false} DropRevisionDistinct(fields: seq<Field>)
    requires DistinctFields(fields)
    ensures DistinctFields(DropRevision(fields))
  {
    if fields != [] {
      var rest := DropRevision(fields[1..]);
      DropRevisionDistinct(fields[1..]);
      DropRevisionSpec(fields[1..]);
      forall k | 0 <= k < |rest|
        ensures rest[k].key != fields[0].key
      {
        assert rest[k] in rest && rest[k] in fields[1..];
        var m :| 0 <= m < |fields[1..]| && fields[1..][m] == rest[k];
        assert fields[m + 1] == rest[k];
      }
    }
  }

  lemma FindDropped(fields: seq<Field>, key: string)
    requires DistinctFields(fields) && key != REVISION
    ensures Has(fields, key) <==> Has(DropRevision(fields), key)
    ensures Has(fields, key) ==> Get(DropRevision(fields), key) == Get(fields, key)
  {
    var rest := DropRevision(fields);
    DropRevisionSpec(fields);
    DropRevisionDistinct(fields);
    if Has(fields, key) {
      var f := fields[Find(fields, key)];
      assert f in fields && f in rest;
      var k :| 0 <= k < |rest| && rest[k] == f;
      assert rest[k].key == key;
      assert Find(rest, key) == k;
    }
    if Has(rest, key) {
      var f := rest[Find(rest, key)];
      assert f in rest && f in fields;
      var k :| 0 <= k < |fields| && fields[k] == f;
    }
  }

  /** Leaving the revision aside respects equality up to key order. */
  lemma WithoutRevisionIgnoresKeyOrder(v: Json, w: Json)
    requires v.Obj? && w.Obj? && DistinctFields(v.fields) && DistinctFields(w.fields) && Equivalent(v, w)
    ensures Equivalent(WithoutRevision(v), WithoutRevision(w))
  {
    var a, b := DropRevision(v.fields), DropRevision(w.fields);
    DropRevisionSpec(v.fields);
    DropRevisionSpec(w.fields);
    forall i | 0 <= i < |a|
      ensures
        var j := Find(b, a[i].key);
        j >= 0 && Equivalent(a[i].value, b[j].value)
    {
      assert a[i] in a && a[i] in v.fields;
      var k :| 0 <= k < |v.fields| && v.fields[k] == a[i];
      var j := Find(w.fields, v.fields[k].key);
      assert j >= 0 && Equivalent(v.fields[k].value, w.fields[j].value);
      FindDropped(w.fields, a[i].key);
    }
    forall j | 0 <= j < |b|
      ensures Find(a, b[j].key) >= 0
    {
      assert b[j] in b && b[j] in w.fields;
      var k :| 0 <= k < |w.fields| && w.fields[k] == b[j];
      assert Find(v.fields, w.fields[k].key) >= 0;
      FindDropped(v.fields, b[j].key);
    }
  }

  // ---------------------------------------------------------------- blanked states

  lemma {:induction false} BlankedItemsAt(items: seq<Json>, i: nat)
    requires i < |items|
    ensures |BlankedItems(items)| == |items| && BlankedItems(items)[i] == Blanked(items[i])
  {
    hide Blanked;
    if |items| > 1 { BlankedItemsAt(items[1..], if i > 0 then i - 1 else 0); }
  }

  lemma {:induction false} BlankedFieldsLength(fields: seq<Field>)
    ensures |BlankedFields(fields)| == |fields|
    ensures forall i :: 0 <= i < |fields| ==> BlankedFields(fields)[i] == Field(fields[i].key, Blanked(fields[i].value))
  {
    hide Blanked;
    if fields != [] { BlankedFieldsLength(fields[1..]); }
  }

  /** Blanking the keys of references respects equality up to key order. */
  lemma {:induction false} BlankedIgnoresKeyOrder(v: Json, w: Json)
    requires Equivalent(v, w)
    ensures Equivalent(Blanked(v), Blanked(w))
    decreases v
  {
    hide HasBlobShape, ValidBlob, BlobOf, SetBlob;
    match v
    case Arr(items) =>
      if items != [] { BlankedItemsAt(items, 0); BlankedItemsAt(w.items, 0); }
      forall i | 0 <= i < |items|
        ensures Equivalent(BlankedItems(items)[i], BlankedItems(w.items)[i])
      {
        BlankedItemsAt(items, i);
        BlankedItemsAt(w.items, i);
        BlankedIgnoresKeyOrder(items[i], w.items[i]);
      }
    case Obj(fields) =>
      EquivalentBlob(fields, w.fields);
      if HasBlobShape(fields) && ValidBlob(fields) {
        SetBlobIgnoresKeyOrder(fields, w.fields, BlobOf(fields).(key := ""));
      } else {
        forall i | 0 <= i < |fields|
          ensures Equivalent(Blanked(fields[i].value), Blanked(w.fields[Find(w.fields, fields[i].key)].value))
        {
          BlankedIgnoresKeyOrder(fields[i].value, w.fields[Find(w.fields, fields[i].key)].value);
        }
        BlankedFieldsIgnoreKeyOrder(fields, w.fields);
      }
    case _ =>
  }

  /** `x` and `y` have the keys of `a` and `b`, in the same places. */
  ghost predicate SameKeys(x: seq<Field>, a: seq<Field>) {
    |x| == |a| && forall i :: 0 <= i < |x| ==> x[i].key == a[i].key
  }

  lemma {:induction false} FindSameKeys(x: seq<Field>, a: seq<Field>, key: string)
    requires SameKeys(x, a)
    ensures Find(x, key) == Find(a, key)
  {
    if x != [] { FindSameKeys(x[1..], a[1..], key); }
  }

  ghost predicate Paired(a: seq<Field>, b: seq<Field>, x: seq<Field>, y: seq<Field>, i: int)
    requires 0 <= i < |a| == |x| && |b| == |y|
  {
    var j := Find(b, a[i].key);
    j >= 0 && Equivalent(x[i].value, y[j].value)
  }

  /** Objects are equal up to key order when fields paired by key are. */
  lemma ObjectsEquivalent(a: seq<Field>, b: seq<Field>, x: seq<Field>, y: seq<Field>)
    requires SameKeys(x, a) && SameKeys(y, b)
    requires forall i :: 0 <= i < |a| ==> Paired(a, b, x, y, i)
    requires forall j :: 0 <= j < |b| ==> Find(a, b[j].key) >= 0
    ensures Equivalent(Obj(x), Obj(y))
  {
    hide Find;
    assert forall i :: 0 <= i < |x| ==> Find(y, x[i].key) >= 0 && Equivalent(x[i].value, y[Find(y, x[i].key)].value) by {
      hide Equivalent;
      forall i | 0 <= i < |x|
        ensures Find(y, x[i].key) >= 0 && Equivalent(x[i].value, y[Find(y, x[i].key)].value)
      {
        FindSameKeys(y, b, x[i].key);
        assert Paired(a, b, x, y, i);
      }
    }
    assert forall j :: 0 <= j < |y| ==> Find(x, y[j].key) >= 0 by {
      hide Equivalent;
      forall j | 0 <= j < |y|
        ensures Find(x, y[j].key) >= 0
      {
        FindSameKeys(x, a, y[j].key);
        assert Find(a, b[j].key) >= 0;
      }
    }
  }

  lemma BlankedFieldsIgnoreKeyOrder(a: seq<Field>, b: seq<Field>)
    requires forall i :: 0 <= i < |a| ==>
      var j := Find(b, a[i].key);
      j >= 0 && Equivalent(Blanked(a[i].value), Blanked(b[j].value))
    requires forall j :: 0 <= j < |b| ==> Find(a, b[j].key) >= 0
    ensures Equivalent(Obj(BlankedFields(a)), Obj(BlankedFields(b)))
  {
    hide Blanked, BlankedFields, Equivalent, Find;
    BlankedFieldsLength(a);
    BlankedFieldsLength(b);
    forall i | 0 <= i < |a|
      ensures Paired(a, b, BlankedFields(a), BlankedFields(b), i)
    {
      var j := Find(b, a[i].key);
      assert j >= 0 && Equivalent(Blanked(a[i].value), Blanked(b[j].value));
    }
    ObjectsEquivalent(a, b, BlankedFields(a), BlankedFields(b));
  }

  lemma SetBlobIgnoresKeyOrder(a: seq<Field>, b: seq<Field>, blob: StoredBlob)
    requires Equivalent(Obj(a), Obj(b))
    ensures Equivalent(Obj(SetBlob(a, blob)), Obj(SetBlob(b, blob)))
  {
    var x, y := SetBlob(a, blob), SetBlob(b, blob);
    forall i | 0 <= i < |a|
      ensures Paired(a, b, x, y, i)
    {
      PairedSetBlob(a, b, blob, i);
    }
    ObjectsEquivalent(a, b, x, y);
  }

  lemma PairedSetBlob(a: seq<Field>, b: seq<Field>, blob: StoredBlob, i: nat)
    requires i < |a| && Paired(a, b, a, b, i)
    ensures Paired(a, b, SetBlob(a, blob), SetBlob(b, blob), i)
  {
    var j := Find(b, a[i].key);
    var f, g := SetField(a[i], blob), SetField(b[j], blob);
    assert SetBlob(a, blob)[i] == f && SetBlob(b, blob)[j] == g;
  }

  lemma {:induction false} BlankedAppended(fields: seq<Field>, f: Field)
    requires f.value.Num?
    ensures BlankedFields(fields + [f]) == BlankedFields(fields) + [f]
  {
    var all := fields + [f];
    if fields == [] {
      assert all[1..] == [];
    } else {
      assert all[1..] == fields[1..] + [f];
      BlankedAppended(fields[1..], f);
    }
  }

  lemma SetBlobAppended(fields: seq<Field>, f: Field, blob: StoredBlob)
    requires f.key == REVISION
    ensures SetBlob(fields + [f], blob) == SetBlob(fields, blob) + [f]
  {
    RevisionFieldIsPlain();
  }

  lemma BlobAppended(fields: seq<Field>, f: Field)
    requires f.key == REVISION
    ensures HasBlobShape(fields + [f]) <==> HasBlobShape(fields)
    ensures HasBlobShape(fields) ==> (ValidBlob(fields + [f]) <==> ValidBlob(fields))
    ensures HasBlobShape(fields) && ValidBlob(fields) ==> BlobOf(fields + [f]) == BlobOf(fields)
  {
    hide SafeKey, IsDigest, SafeSize;
    RevisionFieldIsPlain();
    FindAppended(fields, f, "key");
    FindAppended(fields, f, "digest");
    FindAppended(fields, f, "size");
  }

  lemma BlankedSetRevision(v: Json, n: nat)
    ensures WithoutRevision(Blanked(SetRevision(v, n))) == WithoutRevision(Blanked(v))
  {
    hide HasBlobShape, ValidBlob, BlobOf, SetBlob, Find;
    if v.Obj? && !Has(v.fields, REVISION) {
      var f := Field(REVISION, Num(Decimal(n)));
      BlobAppended(v.fields, f);
      if HasBlobShape(v.fields) && ValidBlob(v.fields) {
        var b := BlobOf(v.fields).(key := "");
        SetBlobAppended(v.fields, f, b);
        DropAppended(SetBlob(v.fields, b), f);
      } else {
        BlankedAppended(v.fields, f);
        DropAppended(BlankedFields(v.fields), f);
      }
    }
  }

  /**
   The same state up to blob keys, the order of object keys, and whether a revision of zero is
   written out.
   */
  ghost predicate SameMeaning(v: Json, w: Json) {
    && Revision(v) == Revision(w)
    && Equivalent(WithoutRevision(Blanked(v)), WithoutRevision(Blanked(w)))
  }

  lemma {:induction false} EquivalentReflexive(v: Json)
    requires WellFormed(v)
    ensures Equivalent(v, v)
  {
    CanonDecides(v, v);
  }
}
