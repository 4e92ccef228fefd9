/** The canonical printer: object keys in order, then the compact printer. */
module CanonicalJson {
  import opened Order
  import opened Json

  function KeyOf(f: Field): string { f.key }

  /** The value with the fields of every object sorted by key. */
  function Canon(v: Json): Json
    decreases v, 1
  {
    match v
    case Arr(items) => Arr(CanonItems(items))
    case Obj(fields) => Obj(SortBy(CanonFields(fields), KeyOf))
    case _ => v
  }

  function CanonItems(items: seq<Json>): (r: seq<Json>)
    ensures |r| == |items|
    decreases items, 0
  {
    if items == [] then [] else [Canon(items[0])] + CanonItems(items[1..])
  }

  function CanonFields(fields: seq<Field>): (r: seq<Field>)
    ensures |r| == |fields|
    decreases fields, 0
  {
    if fields == [] then []
    else [Field(fields[0].key, Canon(fields[0].value))] + CanonFields(fields[1..])
  }

  /** `canonicalJson`. */
  function CanonicalText(v: Json): string {
    Print(Canon(v))
  }

  /** The position of a key in an object, -1 when it is absent. */
  function Find(fields: seq<Field>, key: string): (i: int)
    ensures -1 <= i < |fields|
    ensures i >= 0 ==> fields[i].key == key
    ensures i < 0 ==> forall k :: 0 <= k < |fields| ==> fields[k].key != key
  {
    if fields == [] then -1
    else if fields[0].key == key then 0
    else
      var i := Find(fields[1..], key);
      assert fields == [fields[0]] + fields[1..];
      if i < 0 then -1 else i + 1
  }

  /** Equal up to the order of object keys, said without sorting anything. */
  ghost predicate Equivalent(v: Json, w: Json) {
    match v
    case Arr(items) =>
      && w.Arr? && |items| == |w.items|
      && forall i :: 0 <= i < |items| ==> Equivalent(items[i], w.items[i])
    case Obj(fields) =>
      && w.Obj?
      && (forall i :: 0 <= i < |fields| ==>
          var j := Find(w.fields, fields[i].key);
          j >= 0 && Equivalent(fields[i].value, w.fields[j].value))
      && (forall j :: 0 <= j < |w.fields| ==> Find(fields, w.fields[j].key) >= 0)
    case _ => v == w
  }

  lemma {:induction false} CanonItemsAt(items: seq<Json>, i: nat)
    requires i < |items|
    ensures CanonItems(items)[i] == Canon(items[i])
  {
    if i > 0 {
      CanonItemsAt(items[1..], i - 1);
    }
  }

  lemma {:induction false} CanonFieldsAt(fields: seq<Field>, i: nat)
    requires i < |fields|
    ensures CanonFields(fields)[i] == Field(fields[i].key, Canon(fields[i].value))
  {
    if i > 0 {
      CanonFieldsAt(fields[1..], i - 1);
    }
  }

  ghost predicate DistinctFields(fields: seq<Field>) {
    forall i, j :: 0 <= i < j < |fields| ==> fields[i].key != fields[j].key
  }

  lemma CanonFieldsDistinct(fields: seq<Field>)
    requires DistinctFields(fields)
    ensures DistinctKeys(CanonFields(fields), KeyOf)
  {
    forall i, j | 0 <= i < j < |fields|
      ensures KeyOf(CanonFields(fields)[i]) != KeyOf(CanonFields(fields)[j])
    {
      CanonFieldsAt(fields, i);
      CanonFieldsAt(fields, j);
    }
  }

  lemma {:induction false} CanonWellFormed(v: Json)
    requires WellFormed(v)
    ensures WellFormed(Canon(v))
  {
    match v
    case Arr(items) =>
      forall i | 0 <= i < |items|
        ensures WellFormed(CanonItems(items)[i])
      {
        CanonItemsAt(items, i);
        CanonWellFormed(items[i]);
      }
    case Obj(fields) =>
      var cs := CanonFields(fields);
      CanonFieldsDistinct(fields);
      SortByStrict(cs, KeyOf);
      SortByMembers(cs, KeyOf);
      StrictlySortedDistinct(SortBy(cs, KeyOf), KeyOf);
      var sorted := SortBy(cs, KeyOf);
      forall i | 0 <= i < |sorted|
        ensures WellFormed(sorted[i].value)
      {
        assert sorted[i] in sorted && sorted[i] in cs;
        var k :| 0 <= k < |cs| && cs[k] == sorted[i];
        CanonFieldsAt(fields, k);
        CanonWellFormed(fields[k].value);
      }
      SortedFieldsDistinct(sorted);
    case _ =>
  }

  lemma SortedFieldsDistinct(sorted: seq<Field>)
    requires StrictlySorted(sorted, KeyOf)
    ensures DistinctFields(sorted)
  {
    forall i, j | 0 <= i < j < |sorted|
      ensures sorted[i].key != sorted[j].key
    {
      assert Less(KeyOf(sorted[i]), KeyOf(sorted[j]));
    }
  }

  /** Sorting the keys identifies exactly the values that differ in key order only. */
  lemma {:induction false} CanonDecides(v: Json, w: Json)
    requires WellFormed(v) && WellFormed(w)
    ensures Canon(v) == Canon(w) <==> Equivalent(v, w)
    decreases v
  {
    match v
    case Arr(items) =>
      if w.Arr? && |items| == |w.items| {
        forall i | 0 <= i < |items|
          ensures CanonItems(items)[i] == CanonItems(w.items)[i] <==> Equivalent(items[i], w.items[i])
        {
          CanonItemsAt(items, i);
          CanonItemsAt(w.items, i);
          CanonDecides(items[i], w.items[i]);
        }
      }
    case Obj(fields) =>
      if w.Obj? {
        forall i | 0 <= i < |fields| && Find(w.fields, fields[i].key) >= 0
          ensures
            var j := Find(w.fields, fields[i].key);
            Canon(fields[i].value) == Canon(w.fields[j].value) <==> Equivalent(fields[i].value, w.fields[j].value)
        {
          CanonDecides(fields[i].value, w.fields[Find(w.fields, fields[i].key)].value);
        }
        SameCanonIff(fields, w.fields);
      }
    case _ =>
  }

  /** Each field of `a` has a partner in `b` with the same canonical value, and no key is extra. */
  ghost predicate SameFields(a: seq<Field>, b: seq<Field>) {
    && (forall i :: 0 <= i < |a| ==>
        var j := Find(b, a[i].key);
        j >= 0 && Canon(a[i].value) == Canon(b[j].value))
    && (forall j :: 0 <= j < |b| ==> Find(a, b[j].key) >= 0)
  }

  function CanonField(f: Field): Field {
    Field(f.key, Canon(f.value))
  }

  lemma FieldsInSorted(fields: seq<Field>, y: Field)
    ensures y in SortBy(CanonFields(fields), KeyOf) <==> exists i :: 0 <= i < |fields| && y == CanonField(fields[i])
  {
    var cs := CanonFields(fields);
    SortByMembers(cs, KeyOf);
    if i :| 0 <= i < |fields| && y == CanonField(fields[i]) {
      CanonFieldsAt(fields, i);
      assert cs[i] in cs;
    }
    if y in cs {
      var i :| 0 <= i < |cs| && cs[i] == y;
      CanonFieldsAt(fields, i);
      assert y == CanonField(fields[i]);
    }
  }

  lemma SameCanonIff(a: seq<Field>, b: seq<Field>)
    requires DistinctFields(a) && DistinctFields(b)
    ensures SortBy(CanonFields(a), KeyOf) == SortBy(CanonFields(b), KeyOf) <==> SameFields(a, b)
  {
    var sa, sb := SortBy(CanonFields(a), KeyOf), SortBy(CanonFields(b), KeyOf);
    if sa == sb {
      SameSortedHasSameFields(a, b);
    }
    if SameFields(a, b) {
      forall y
        ensures y in sa <==> y in sb
      {
        SameFieldsSameMembers(a, b, y);
      }
      CanonFieldsDistinct(a);
      CanonFieldsDistinct(b);
      SortByStrict(CanonFields(a), KeyOf);
      SortByStrict(CanonFields(b), KeyOf);
      StrictlySortedUnique(sa, sb, KeyOf);
    }
  }

  lemma SameSortedHasSameFields(a: seq<Field>, b: seq<Field>)
    requires DistinctFields(a) && DistinctFields(b)
    requires SortBy(CanonFields(a), KeyOf) == SortBy(CanonFields(b), KeyOf)
    ensures SameFields(a, b)
  {
    forall i | 0 <= i < |a|
      ensures
        var j := Find(b, a[i].key);
        j >= 0 && Canon(a[i].value) == Canon(b[j].value)
    {
      FieldsInSorted(a, CanonField(a[i]));
      FieldsInSorted(b, CanonField(a[i]));
      var j :| 0 <= j < |b| && CanonField(a[i]) == CanonField(b[j]);
      assert Find(b, a[i].key) == j;
    }
    forall j | 0 <= j < |b|
      ensures Find(a, b[j].key) >= 0
    {
      FieldsInSorted(b, CanonField(b[j]));
      FieldsInSorted(a, CanonField(b[j]));
    }
  }

  lemma SameFieldsSameMembers(a: seq<Field>, b: seq<Field>, y: Field)
    requires DistinctFields(b) && SameFields(a, b)
    ensures y in SortBy(CanonFields(a), KeyOf) <==> y in SortBy(CanonFields(b), KeyOf)
  {
    FieldsInSorted(a, y);
    FieldsInSorted(b, y);
    if i :| 0 <= i < |a| && y == CanonField(a[i]) {
      assert y == CanonField(b[Find(b, a[i].key)]);
    }
    if j :| 0 <= j < |b| && y == CanonField(b[j]) {
      var i := Find(a, b[j].key);
      assert Find(b, a[i].key) == j;
      assert y == CanonField(a[i]);
    }
  }

  /** Comparing canonical texts decides equality of values up to key order. */
  lemma CanonicalTextDecides(v: Json, w: Json)
    requires WellFormed(v) && WellFormed(w)
    ensures CanonicalText(v) == CanonicalText(w) <==> Equivalent(v, w)
  {
    CanonWellFormed(v);
    CanonWellFormed(w);
    CanonDecides(v, w);
    if CanonicalText(v) == CanonicalText(w) {
      PrintInjective(Canon(v), Canon(w));
    }
  }
}
