/** The shape of a registry state: what `assertRegistryState` looks at, and what it does not. */
module Registry {
  import opened Options
  import opened Order
  import opened Digest
  import opened Numerals
  import opened Paths
  import opened Json
  import opened CanonicalJson
  import opened Blobs
  import opened BlobOrder
  import opened Manifests
  import opened Reach
  import opened Backup
  import opened Restore
  import opened RoundTrip

  // ---------------------------------------------------------------- the shape

  const COLLECTIONS := ["skills", "packs", "jobs", "scans", "upstreams", "authorizations", "grants", "audit"]
  const LATER_COLLECTIONS := ["drafts", "installReceiptTickets", "installReceipts", "builderSessions"]
  const SCANNERS := ["cisco-skill-scanner", "nvidia-skillspector", "skillsguard"]
  const MODES := ["disabled", "advisory", "required"]
  const SEVERITIES := ["info", "low", "medium", "high", "critical"]

  /** A property of a record; `None` when it is undefined. */
  function Property(v: Json, key: string): Option<Json> {
    if v.Obj? && Has(v.fields, key) then Some(v.fields[Find(v.fields, key)].value) else None
  }

  predicate IsArray(v: Option<Json>) { v.Some? && v.value.Arr? }
  predicate IsText(v: Option<Json>) { v.Some? && v.value.Str? }

  predicate OneOf(v: Option<Json>, texts: seq<string>) {
    v.Some? && v.value.Str? && v.value.s in texts
  }

  /** A number is kept as its printed text, so it is finite, and a sign is there exactly below zero. */
  predicate NotNegative(v: Option<Json>) {
    v.Some? && v.value.Num? && !("-" <= v.value.text)
  }

  predicate Positive(v: Option<Json>) {
    NotNegative(v) && v.value.text != "0"
  }

  predicate Severities(p: Option<Json>) {
    IsArray(p) && forall i :: 0 <= i < |p.value.items| ==> OneOf(Some(p.value.items[i]), SEVERITIES)
  }

  predicate ValidScanner(v: Json) {
    && v.Obj?
    && OneOf(Property(v, "id"), SCANNERS)
    && OneOf(Property(v, "mode"), MODES)
    && Severities(Property(v, "blockSeverities"))
    && Positive(Property(v, "timeoutSeconds"))
  }

  predicate ValidScanners(items: seq<Json>) {
    && (forall i :: 0 <= i < |items| ==> ValidScanner(items[i]))
    && (forall i, j :: 0 <= i < j < |items| ==> Property(items[i], "id") != Property(items[j], "id"))
  }

  predicate ValidPolicy(v: Json) {
    && v.Obj?
    && IsText(Property(v, "revision"))
    && IsArray(Property(v, "scanners")) && ValidScanners(Property(v, "scanners").value.items)
    && Property(v, "allowUnscanned").Some? && Property(v, "allowUnscanned").value.Bool?
    && NotNegative(Property(v, "evidenceMaxAgeSeconds"))
    && (Property(v, "hooks").Some? ==> Property(v, "hooks").value.Arr?)
  }

  /** What `assertRegistryState` asks of a state besides its revision. */
  predicate RegistryShape(v: Json) {
    && v.Obj?
    && Property(v, "schemaVersion") == Some(Num("1"))
    && (forall key :: key in COLLECTIONS ==> IsArray(Property(v, key)))
    && (forall key :: key in LATER_COLLECTIONS && Property(v, key).Some? ==> IsArray(Property(v, key)))
    && Property(v, "policy").Some? && ValidPolicy(Property(v, "policy").value)
  }

  // ---------------------------------------------------------------- the shape, field by field

  lemma PropertyIff(v: Json, key: string, w: Json)
    ensures Property(v, key) == Some(w) <==> FieldIs(v, key, w)
  {
    hide Find;
    if v.Obj? { FieldIsIff(v.fields, key, w); }
  }

  ghost predicate HasArray(v: Json, key: string) {
    exists items :: FieldIs(v, key, Arr(items))
  }

  ghost predicate ArrayIfThere(v: Json, key: string) {
    forall w :: FieldIs(v, key, w) ==> w.Arr?
  }

  ghost predicate HasText(v: Json, key: string, texts: set<string>) {
    exists s :: s in texts && FieldIs(v, key, Str(s))
  }

  predicate SeverityIs(w: Json) {
    w.Str? && w.s in {"info", "low", "medium", "high", "critical"}
  }

  /** A scanner of the policy: known, with a mode, known severities that block, and a positive timeout. */
  ghost predicate ScannerIs(v: Json) {
    && HasText(v, "id", {"cisco-skill-scanner", "nvidia-skillspector", "skillsguard"})
    && HasText(v, "mode", {"disabled", "advisory", "required"})
    && (exists items :: FieldIs(v, "blockSeverities", Arr(items)) && forall i :: 0 <= i < |items| ==> SeverityIs(items[i]))
    && (exists text :: FieldIs(v, "timeoutSeconds", Num(text)) && text != "0" && !("-" <= text))
  }

  lemma TextIff(v: Json, key: string, texts: seq<string>, same: set<string>)
    requires forall s :: s in texts <==> s in same
    ensures OneOf(Property(v, key), texts) <==> HasText(v, key, same)
  {
    hide Property, FieldIs;
    if OneOf(Property(v, key), texts) {
      PropertyIff(v, key, Property(v, key).value);
    }
    if s :| s in same && FieldIs(v, key, Str(s)) {
      PropertyIff(v, key, Str(s));
    }
  }

  lemma ArrayIff(v: Json, key: string)
    ensures IsArray(Property(v, key)) <==> HasArray(v, key)
    ensures (Property(v, key).Some? ==> IsArray(Property(v, key))) <==> ArrayIfThere(v, key)
  {
    hide Property, FieldIs;
    forall w
      ensures Property(v, key) == Some(w) <==> FieldIs(v, key, w)
    {
      PropertyIff(v, key, w);
    }
    if Property(v, key).Some? {
      assert FieldIs(v, key, Property(v, key).value);
      if IsArray(Property(v, key)) { assert FieldIs(v, key, Arr(Property(v, key).value.items)); }
    }
  }

  lemma IdIff(v: Json)
    ensures OneOf(Property(v, "id"), SCANNERS) <==> HasText(v, "id", {"cisco-skill-scanner", "nvidia-skillspector", "skillsguard"})
  {
    hide Property, HasText, OneOf;
    TextIff(v, "id", SCANNERS, {"cisco-skill-scanner", "nvidia-skillspector", "skillsguard"});
  }

  lemma ModeIff(v: Json)
    ensures OneOf(Property(v, "mode"), MODES) <==> HasText(v, "mode", {"disabled", "advisory", "required"})
  {
    hide Property, HasText, OneOf;
    TextIff(v, "mode", MODES, {"disabled", "advisory", "required"});
  }

  lemma SeveritiesIff(v: Json)
    ensures Severities(Property(v, "blockSeverities")) <==>
      exists items :: FieldIs(v, "blockSeverities", Arr(items)) && forall i :: 0 <= i < |items| ==> SeverityIs(items[i])
  {
    hide Property, FieldIs, OneOf, SeverityIs;
    forall w
      ensures Property(v, "blockSeverities") == Some(w) <==> FieldIs(v, "blockSeverities", w)
    {
      PropertyIff(v, "blockSeverities", w);
    }
    forall w: Json
      ensures OneOf(Some(w), SEVERITIES) <==> SeverityIs(w)
    {
      SeverityIff(w);
    }
    if Severities(Property(v, "blockSeverities")) {
      assert FieldIs(v, "blockSeverities", Arr(Property(v, "blockSeverities").value.items));
    }
  }

  lemma TimeoutIff(v: Json)
    ensures Positive(Property(v, "timeoutSeconds")) <==>
      exists text :: FieldIs(v, "timeoutSeconds", Num(text)) && text != "0" && !("-" <= text)
  {
    hide Property, FieldIs;
    forall w
      ensures Property(v, "timeoutSeconds") == Some(w) <==> FieldIs(v, "timeoutSeconds", w)
    {
      PropertyIff(v, "timeoutSeconds", w);
    }
    if Positive(Property(v, "timeoutSeconds")) {
      assert FieldIs(v, "timeoutSeconds", Num(Property(v, "timeoutSeconds").value.text));
    }
  }

  lemma ScannerIff(v: Json)
    ensures ValidScanner(v) <==> ScannerIs(v)
  {
    hide Property, FieldIs, HasText, OneOf, SeverityIs, Positive;
    IdIff(v);
    ModeIff(v);
    SeveritiesIff(v);
    TimeoutIff(v);
    assert ScannerIs(v) ==> v.Obj? by { ScannerIsRecord(v); }
  }

  lemma ScannerIsRecord(v: Json)
    ensures ScannerIs(v) ==> v.Obj?
  {
    hide HasText;
  }

  lemma SeverityIff(w: Json)
    ensures OneOf(Some(w), SEVERITIES) <==> SeverityIs(w)
  {
  }

  lemma OnlyRecordsHaveFields(v: Json)
    ensures !v.Obj? ==> forall key, w :: !FieldIs(v, key, w)
  {
  }

  /** The policy: a revision, known scanners listed once, a flag, an age, and hooks in a list if there are any. */
  ghost predicate PolicyIs(v: Json) {
    && (exists s :: FieldIs(v, "revision", Str(s)))
    && (exists items :: FieldIs(v, "scanners", Arr(items)) && ScannersAre(items))
    && (exists b :: FieldIs(v, "allowUnscanned", Bool(b)))
    && (exists text :: FieldIs(v, "evidenceMaxAgeSeconds", Num(text)) && !("-" <= text))
    && ArrayIfThere(v, "hooks")
  }

  ghost predicate ScannersAre(items: seq<Json>) {
    && (forall i :: 0 <= i < |items| ==> ScannerIs(items[i]))
    && (forall i, j, w :: 0 <= i < j < |items| && FieldIs(items[i], "id", w) ==> !FieldIs(items[j], "id", w))
  }

  lemma ScannersIff(items: seq<Json>)
    ensures ValidScanners(items) <==> ScannersAre(items)
  {
    hide Property, FieldIs, ValidScanner, ScannerIs;
    forall i | 0 <= i < |items|
      ensures ValidScanner(items[i]) <==> ScannerIs(items[i])
      ensures ValidScanner(items[i]) ==> Property(items[i], "id").Some?
      ensures forall w :: Property(items[i], "id") == Some(w) <==> FieldIs(items[i], "id", w)
    {
      ScannerIff(items[i]);
      if ValidScanner(items[i]) { ScannerHasId(items[i]); }
      forall w
        ensures Property(items[i], "id") == Some(w) <==> FieldIs(items[i], "id", w)
      {
        PropertyIff(items[i], "id", w);
      }
    }
  }

  lemma ScannerHasId(v: Json)
    requires ValidScanner(v)
    ensures Property(v, "id").Some?
  {
  }

  lemma PolicyIff(v: Json)
    ensures ValidPolicy(v) <==> PolicyIs(v)
  {
    hide Property, FieldIs, ValidScanners, ScannersAre, ArrayIfThere;
    OnlyRecordsHaveFields(v);
    forall w
      ensures Property(v, "revision") == Some(w) <==> FieldIs(v, "revision", w)
      ensures Property(v, "scanners") == Some(w) <==> FieldIs(v, "scanners", w)
      ensures Property(v, "allowUnscanned") == Some(w) <==> FieldIs(v, "allowUnscanned", w)
      ensures Property(v, "evidenceMaxAgeSeconds") == Some(w) <==> FieldIs(v, "evidenceMaxAgeSeconds", w)
    {
      PropertyIff(v, "revision", w);
      PropertyIff(v, "scanners", w);
      PropertyIff(v, "allowUnscanned", w);
      PropertyIff(v, "evidenceMaxAgeSeconds", w);
    }
    ArrayIff(v, "hooks");
    forall items
      ensures ValidScanners(items) <==> ScannersAre(items)
    {
      ScannersIff(items);
    }
    if ValidPolicy(v) {
      assert FieldIs(v, "revision", Str(Property(v, "revision").value.s));
      assert FieldIs(v, "scanners", Arr(Property(v, "scanners").value.items));
      assert FieldIs(v, "allowUnscanned", Bool(Property(v, "allowUnscanned").value.b));
      assert FieldIs(v, "evidenceMaxAgeSeconds", Num(Property(v, "evidenceMaxAgeSeconds").value.text));
    }
  }

  /** A registry state: the schema version, eight collections, four later ones if they are there, and a policy. */
  ghost predicate RegistryIs(v: Json) {
    && FieldIs(v, "schemaVersion", Num("1"))
    && HasArray(v, "skills") && HasArray(v, "packs") && HasArray(v, "jobs") && HasArray(v, "scans")
    && HasArray(v, "upstreams") && HasArray(v, "authorizations") && HasArray(v, "grants") && HasArray(v, "audit")
    && ArrayIfThere(v, "drafts") && ArrayIfThere(v, "installReceiptTickets") && ArrayIfThere(v, "installReceipts")
    && ArrayIfThere(v, "builderSessions")
    && (exists p :: FieldIs(v, "policy", p) && PolicyIs(p))
  }

  lemma CollectionsIff(v: Json)
    ensures (forall key :: key in COLLECTIONS ==> IsArray(Property(v, key))) <==>
      && HasArray(v, "skills") && HasArray(v, "packs") && HasArray(v, "jobs") && HasArray(v, "scans")
      && HasArray(v, "upstreams") && HasArray(v, "authorizations") && HasArray(v, "grants") && HasArray(v, "audit")
  {
    hide Property, HasArray, ArrayIfThere, IsArray;
    forall key
      ensures IsArray(Property(v, key)) <==> HasArray(v, key)
    {
      ArrayIff(v, key);
    }
    var c := COLLECTIONS;
    assert c[0] == "skills" && c[1] == "packs" && c[2] == "jobs" && c[3] == "scans";
    assert c[4] == "upstreams" && c[5] == "authorizations" && c[6] == "grants" && c[7] == "audit";
  }

  lemma LaterIff(v: Json)
    ensures (forall key :: key in LATER_COLLECTIONS && Property(v, key).Some? ==> IsArray(Property(v, key))) <==>
      && ArrayIfThere(v, "drafts") && ArrayIfThere(v, "installReceiptTickets") && ArrayIfThere(v, "installReceipts")
      && ArrayIfThere(v, "builderSessions")
  {
    hide Property, HasArray, ArrayIfThere, IsArray;
    forall key
      ensures (Property(v, key).Some? ==> IsArray(Property(v, key))) <==> ArrayIfThere(v, key)
    {
      ArrayIff(v, key);
    }
    var c := LATER_COLLECTIONS;
    assert c[0] == "drafts" && c[1] == "installReceiptTickets" && c[2] == "installReceipts" && c[3] == "builderSessions";
  }

  /** The schema accepts exactly these. */
  lemma RegistryShapeIff(v: Json)
    ensures RegistryShape(v) <==> RegistryIs(v)
  {
    hide Property, FieldIs, ValidPolicy, PolicyIs, HasArray, ArrayIfThere, IsArray;
    OnlyRecordsHaveFields(v);
    CollectionsIff(v);
    LaterIff(v);
    PropertyIff(v, "schemaVersion", Num("1"));
    forall p
      ensures Property(v, "policy") == Some(p) <==> FieldIs(v, "policy", p)
      ensures ValidPolicy(p) <==> PolicyIs(p)
    {
      PropertyIff(v, "policy", p);
      PolicyIff(p);
    }
  }

  // ---------------------------------------------------------------- values the shape cannot tell apart

  /** The shape looks at no property with one of the names of a blob, nor at the revision. */
  predicate Read(key: string) {
    key != "key" && key != "digest" && key != "size" && key != REVISION
  }

  lemma ReadKeys()
    ensures Read("schemaVersion") && Read("policy") && Read("revision") && Read("scanners") && Read("allowUnscanned")
    ensures Read("evidenceMaxAgeSeconds") && Read("hooks") && Read("id") && Read("mode") && Read("blockSeverities")
    ensures Read("timeoutSeconds")
  {
    assert |"key"| == 3 && |"digest"| == 6 && |"size"| == 4 && |REVISION| == 16;
    assert "policy"[0] == 'p' && "digest"[0] == 'd' && "mode"[0] == 'm' && "size"[0] == 's';
  }

  lemma ReadCollections(key: string)
    requires key in COLLECTIONS || key in LATER_COLLECTIONS
    ensures Read(key)
  {
    assert |"key"| == 3 && |"digest"| == 6 && |"size"| == 4 && |REVISION| == 16;
    assert "skills"[0] == 's' && "grants"[0] == 'g' && "jobs"[0] == 'j' && "drafts"[1] == 'r';
    assert "digest"[0] == 'd' && "digest"[1] == 'i' && "size"[0] == 's';
  }

  /** The same value as far as the properties that are read go, at every depth. */
  ghost predicate Agrees(v: Json, w: Json) {
    match v
    case Arr(items) => w.Arr? && |items| == |w.items| && forall i :: 0 <= i < |items| ==> Agrees(items[i], w.items[i])
    case Obj(fields) =>
      && w.Obj?
      && (forall key :: Read(key) ==> (Has(fields, key) <==> Has(w.fields, key)))
      && (forall key :: Read(key) && Has(fields, key) && Has(w.fields, key) ==>
          Agrees(fields[Find(fields, key)].value, w.fields[Find(w.fields, key)].value))
    case _ => v == w
  }

  lemma AgreesKind(v: Json, w: Json)
    requires Agrees(v, w)
    ensures v.Arr? <==> w.Arr?
    ensures v.Obj? <==> w.Obj?
    ensures !v.Arr? && !v.Obj? ==> v == w
    ensures v.Arr? ==> |v.items| == |w.items| && forall i :: 0 <= i < |v.items| ==> Agrees(v.items[i], w.items[i])
  {
  }

  ghost predicate AgreeingProperties(p: Option<Json>, q: Option<Json>) {
    (p.Some? <==> q.Some?) && (p.Some? ==> Agrees(p.value, q.value))
  }

  lemma PropertyAgrees(v: Json, w: Json, key: string)
    requires Agrees(v, w) && Read(key)
    ensures AgreeingProperties(Property(v, key), Property(w, key))
  {
  }

  lemma SimpleAgrees(p: Option<Json>, q: Option<Json>)
    requires AgreeingProperties(p, q)
    ensures IsArray(p) <==> IsArray(q)
    ensures p.Some? && !p.value.Arr? && !p.value.Obj? ==> p == q
    ensures q.Some? && !q.value.Arr? && !q.value.Obj? ==> p == q
  {
    if p.Some? { AgreesKind(p.value, q.value); }
  }

  lemma ReadAgrees(v: Json, w: Json, key: string)
    requires Agrees(v, w) && Read(key)
    ensures AgreeingProperties(Property(v, key), Property(w, key))
    ensures IsArray(Property(v, key)) <==> IsArray(Property(w, key))
    ensures
      var p, q := Property(v, key), Property(w, key);
      (p.Some? && !p.value.Arr? && !p.value.Obj?) || (q.Some? && !q.value.Arr? && !q.value.Obj?) ==> p == q
  {
    hide Agrees;
    PropertyAgrees(v, w, key);
    SimpleAgrees(Property(v, key), Property(w, key));
  }

  lemma ScannerAgrees(v: Json, w: Json)
    requires Agrees(v, w)
    ensures ValidScanner(v) <==> ValidScanner(w)
    ensures OneOf(Property(v, "id"), SCANNERS) || OneOf(Property(w, "id"), SCANNERS) ==> Property(v, "id") == Property(w, "id")
  {
    hide Agrees, Property, Read;
    ReadKeys();
    AgreesKind(v, w);
    ReadAgrees(v, w, "id");
    ReadAgrees(v, w, "mode");
    ReadAgrees(v, w, "blockSeverities");
    ReadAgrees(v, w, "timeoutSeconds");
    var p, q := Property(v, "blockSeverities"), Property(w, "blockSeverities");
    if IsArray(p) {
      AgreesKind(p.value, q.value);
      forall i | 0 <= i < |p.value.items|
        ensures OneOf(Some(p.value.items[i]), SEVERITIES) <==> OneOf(Some(q.value.items[i]), SEVERITIES)
      {
        AgreesKind(p.value.items[i], q.value.items[i]);
      }
    }
  }

  lemma ScannersAgree(a: seq<Json>, b: seq<Json>)
    requires |a| == |b| && forall i :: 0 <= i < |a| ==> Agrees(a[i], b[i])
    ensures ValidScanners(a) <==> ValidScanners(b)
  {
    hide Agrees, Property;
    forall i | 0 <= i < |a|
      ensures ValidScanner(a[i]) <==> ValidScanner(b[i])
      ensures ValidScanner(a[i]) ==> Property(a[i], "id") == Property(b[i], "id")
    {
      ScannerAgrees(a[i], b[i]);
    }
  }

  lemma PolicyAgrees(v: Json, w: Json)
    requires Agrees(v, w)
    ensures ValidPolicy(v) <==> ValidPolicy(w)
  {
    hide Agrees, Property, ValidScanners, Read;
    ReadKeys();
    AgreesKind(v, w);
    ReadAgrees(v, w, "revision");
    ReadAgrees(v, w, "scanners");
    ReadAgrees(v, w, "allowUnscanned");
    ReadAgrees(v, w, "evidenceMaxAgeSeconds");
    ReadAgrees(v, w, "hooks");
    var p, q := Property(v, "scanners"), Property(w, "scanners");
    if IsArray(p) {
      AgreesKind(p.value, q.value);
      ScannersAgree(p.value.items, q.value.items);
    }
  }

  /** The shape cannot tell agreeing states apart. */
  lemma ShapeAgrees(v: Json, w: Json)
    requires Agrees(v, w)
    ensures RegistryShape(v) <==> RegistryShape(w)
  {
    hide Agrees, Property, ValidPolicy, Read;
    ReadKeys();
    AgreesKind(v, w);
    ReadAgrees(v, w, "schemaVersion");
    ReadAgrees(v, w, "policy");
    forall key | key in COLLECTIONS || key in LATER_COLLECTIONS
      ensures AgreeingProperties(Property(v, key), Property(w, key))
      ensures IsArray(Property(v, key)) <==> IsArray(Property(w, key))
    {
      ReadCollections(key);
      ReadAgrees(v, w, key);
    }
    if Property(v, "policy").Some? { PolicyAgrees(Property(v, "policy").value, Property(w, "policy").value); }
  }

  // ---------------------------------------------------------------- states of one meaning agree

  lemma {:induction false} AgreesReflexive(v: Json)
    ensures Agrees(v, v)
  {
    match v
    case Arr(items) =>
      forall i | 0 <= i < |items|
        ensures Agrees(items[i], items[i])
      {
        AgreesReflexive(items[i]);
      }
    case Obj(fields) =>
      forall key | Read(key) && Has(fields, key)
        ensures Agrees(fields[Find(fields, key)].value, fields[Find(fields, key)].value)
      {
        AgreesReflexive(fields[Find(fields, key)].value);
      }
    case _ =>
  }

  lemma {:induction false} EquivalentAgrees(v: Json, w: Json)
    requires Equivalent(v, w)
    ensures Agrees(v, w)
  {
    match v
    case Arr(items) =>
      forall i | 0 <= i < |items|
        ensures Agrees(items[i], w.items[i])
      {
        EquivalentAgrees(items[i], w.items[i]);
      }
    case Obj(fields) =>
      forall key | Read(key)
        ensures Has(fields, key) <==> Has(w.fields, key)
        ensures Has(fields, key) ==> Agrees(fields[Find(fields, key)].value, w.fields[Find(w.fields, key)].value)
      {
        EquivalentHas(fields, w.fields, key);
        if Has(fields, key) {
          EquivalentAgrees(fields[Find(fields, key)].value, w.fields[Find(w.fields, key)].value);
        }
      }
    case _ =>
  }

  /** The same keys at the same places. */
  lemma {:induction false} FindByKeys(a: seq<Field>, b: seq<Field>, key: string)
    requires |a| == |b| && forall i :: 0 <= i < |a| ==> a[i].key == b[i].key
    ensures Find(a, key) == Find(b, key)
  {
    if a != [] { FindByKeys(a[1..], b[1..], key); }
  }

  lemma {:induction false} BlankedAgrees(v: Json)
    ensures Agrees(v, Blanked(v))
  {
    hide HasBlobShape, ValidBlob, BlobOf, Find, BlankedItems, BlankedFields;
    match v
    case Arr(items) =>
      forall i | 0 <= i < |items|
        ensures |BlankedItems(items)| == |items| && Agrees(items[i], BlankedItems(items)[i])
      {
        BlankedItemsAt(items, i);
        BlankedAgrees(items[i]);
      }
      BlankedItemsLength(items);
    case Obj(fields) =>
      var after := Blanked(v).fields;
      BlankedFieldsLength(fields);
      forall key | Read(key)
        ensures Find(after, key) == Find(fields, key)
        ensures Has(fields, key) ==> Agrees(fields[Find(fields, key)].value, after[Find(fields, key)].value)
      {
        FindByKeys(fields, after, key);
        if Has(fields, key) {
          BlankedAgrees(fields[Find(fields, key)].value);
          AgreesReflexive(fields[Find(fields, key)].value);
        }
      }
    case _ =>
  }

  lemma BlankedItemsLength(items: seq<Json>)
    ensures |BlankedItems(items)| == |items|
  {
    if items != [] { BlankedItemsAt(items, 0); }
  }

  lemma WithoutRevisionAgrees(v: Json)
    requires v.Obj? && DistinctFields(v.fields)
    ensures Agrees(v, WithoutRevision(v))
  {
    hide Find;
    forall key | Read(key)
      ensures Has(v.fields, key) <==> Has(DropRevision(v.fields), key)
      ensures Has(v.fields, key) ==> Agrees(Get(v.fields, key), Get(DropRevision(v.fields), key))
    {
      FindDropped(v.fields, key);
      if Has(v.fields, key) { AgreesReflexive(Get(v.fields, key)); }
    }
  }

  lemma MeaningHasShape(v: Json)
    requires v.Obj? && WellFormed(v)
    ensures RegistryShape(v) <==> RegistryShape(WithoutRevision(Blanked(v)))
  {
    hide RegistryShape, Agrees, Blanked;
    assert DistinctFields(v.fields);
    BlankedKeepsKeys(v);
    BlankedAgrees(v);
    WithoutRevisionAgrees(Blanked(v));
    ShapeAgrees(v, Blanked(v));
    ShapeAgrees(Blanked(v), WithoutRevision(Blanked(v)));
  }

  /** The registry's own schema reads nothing but the meaning of a state. */
  lemma RegistryReadsMeaning(state: Json)
    requires WellFormed(state) && RegistryShape(state)
    ensures SchemaReadsMeaning(RegistryShape, state)
  {
    hide RegistryShape, Agrees, Blanked, Equivalent, WellFormed;
    assert state.Obj? by { ShapeIsObject(state); }
    forall v: Json | v.Obj? && WellFormed(v) && SameMeaning(v, state)
      ensures RegistryShape(v)
    {
      MeaningHasShape(v);
      MeaningHasShape(state);
      EquivalentAgrees(WithoutRevision(Blanked(v)), WithoutRevision(Blanked(state)));
      ShapeAgrees(WithoutRevision(Blanked(v)), WithoutRevision(Blanked(state)));
    }
  }

  lemma ShapeIsObject(v: Json)
    ensures RegistryShape(v) ==> v.Obj?
  {
  }

  /** So every valid manifest of a registry state restores into an honest target. */
  lemma RegistryRestores(
      m: Manifest, archive: Objects, limit: nat, put: Store, database: Database, objects: Objects)
    requires WellFormed(m.state) && ManifestOk(RegistryShape, m, limit) && Archived(m.objects, archive)
    requires HonestStore(put) && HonestDatabase(database)
    ensures forall i :: 0 <= i < |m.objects| ==> m.objects[i].archivePath in archive
    ensures Restorable(
      RegistryShape, m.organization, m, archive, limit, Answers(put, objects, archive, m.objects, |m.objects|), database, objects, map[])
  {
    hide RegistryShape, ListsAll, Collect, OwnedBy, Sum, ValidObject, WellFormed, HonestStore, Restorable, Archived, HonestDatabase,
      SchemaReadsMeaning;
    RegistryReadsMeaning(m.state);
    HonestTargetRestores(RegistryShape, m, archive, limit, put, database, objects);
  }

  // ---------------------------------------------------------------- a state that is captured and not read back

  const TAB_KEY := "a\tb"

  function TabBlob(): seq<Field> {
    [Field("key", Str(TAB_KEY)), Field("digest", Str(DigestText([]))), Field("size", Num("0"))]
  }

  function Policy(): Json {
    Obj([
      Field("revision", Str("policy-initial")), Field("scanners", Arr([])), Field("allowUnscanned", Bool(false)),
      Field("evidenceMaxAgeSeconds", Num("86400"))])
  }

  function Skill(): Json {
    Obj([Field("artifact", Obj(TabBlob()))])
  }

  function EmptyCollections(keys: seq<string>): (r: seq<Field>)
    ensures |r| == |keys|
  {
    seq(|keys|, i requires 0 <= i < |keys| => Field(keys[i], Arr([])))
  }

  function TabFields(): seq<Field> {
    [Field("schemaVersion", Num("1")), Field("policy", Policy()), Field("skills", Arr([Skill()]))] + EmptyCollections(COLLECTIONS[1..])
  }

  /** A registry state with one reference, whose key holds a tab. */
  function TabState(): Json {
    Obj(TabFields())
  }

  /** Every field of the state but two is an array, and none has a name that is looked for elsewhere. */
  lemma TabFieldNames(i: nat)
    requires i < |TabFields()|
    ensures TabFields()[i].key == "schemaVersion" <==> i == 0
    ensures TabFields()[i].key == "policy" <==> i == 1
    ensures i >= 2 ==> TabFields()[i].value.Arr?
    ensures TabFields()[i].key != "key" && TabFields()[i].key != REVISION && TabFields()[i].key != ORGANIZATION
  {
    ReadKeys();
    if i >= 2 {
      var key := TabFields()[i].key;
      assert key in COLLECTIONS by { TabFieldIsCollection(i); }
      ReadCollections(key);
      NotCollections(key);
    }
    assert |"schemaVersion"| == 13 && |"policy"| == 6 && |ORGANIZATION| == 14;
  }

  lemma TabFieldIsCollection(i: nat)
    requires 2 <= i < |TabFields()|
    ensures TabFields()[i].key == COLLECTIONS[i - 2] && TabFields()[i].key in COLLECTIONS
  {
  }

  lemma NotCollections(key: string)
    requires key in COLLECTIONS
    ensures key != "schemaVersion" && key != "policy" && key != ORGANIZATION
  {
    assert |"schemaVersion"| == 13 && |"policy"| == 6 && |ORGANIZATION| == 14;
    assert "policy"[0] == 'p' && "skills"[0] == 's' && "grants"[0] == 'g';
    assert ORGANIZATION[0] == 'o' && "authorizations"[0] == 'a';
  }

  lemma TabPolicyIsValid()
    ensures ValidPolicy(Policy())
  {
    hide Find;
    var f := Policy().fields;
    assert |"revision"| == 8 && |"scanners"| == 8 && |"allowUnscanned"| == 14 && |"evidenceMaxAgeSeconds"| == 21 && |"hooks"| == 5;
    assert "revision"[0] == 'r' && "scanners"[0] == 's';
    assert f[0].key == "revision" && f[1].key == "scanners" && f[2].key == "allowUnscanned" && f[3].key == "evidenceMaxAgeSeconds";
    assert Find(f, "hooks") < 0;
    assert "86400"[0] == '8';
  }

  lemma TabStateHasShape()
    ensures RegistryShape(TabState())
  {
    hide Policy, ValidPolicy, Find;
    var fields := TabFields();
    forall i | 0 <= i < |fields|
      ensures fields[i].key == "schemaVersion" <==> i == 0
      ensures fields[i].key == "policy" <==> i == 1
      ensures i >= 2 ==> fields[i].value.Arr?
    {
      TabFieldNames(i);
    }
    TabPolicyIsValid();
    assert fields[0].key == "schemaVersion" && fields[1].key == "policy";
    forall key | key in COLLECTIONS
      ensures IsArray(Property(TabState(), key))
    {
      NotCollections(key);
      var k :| 0 <= k < |COLLECTIONS| && COLLECTIONS[k] == key;
      TabFieldIsCollection(k + 2);
    }
    forall key | key in LATER_COLLECTIONS
      ensures key != "schemaVersion" && key != "policy"
    {
      assert |"schemaVersion"| == 13 && |"policy"| == 6 && "policy"[0] == 'p' && "drafts"[0] == 'd';
    }
  }

  lemma TabBlobIsValid()
    ensures HasBlobShape(TabBlob()) && ValidBlob(TabBlob()) && BlobOf(TabBlob()) == StoredBlob(TAB_KEY, DigestText([]), 0)
  {
    hide SafeKey, SafeSize;
    var f := TabBlob();
    assert f[0].key == "key" && f[1].key == "digest" && f[2].key == "size";
    assert |"key"| == 3 && |"digest"| == 6 && |"size"| == 4;
    assert Find(f, "key") == 0 && Find(f, "digest") == 1 && Find(f, "size") == 2;
    TabKeyIsSafe();
    ZeroIsSafe();
    assert DigestText([])[7..] == "";
  }

  lemma TabKeyIsSafe()
    ensures SafeKey(TAB_KEY)
  {
    SplitFree(TAB_KEY, '/');
  }

  lemma ZeroIsSafe()
    ensures SafeSize("0") && Value("0") == 0
  {
    assert Decimal(0) == "0";
    ValueOfDecimal(0);
  }

  /** Records without a key and without references below them hold none. */
  lemma {:induction false} QuietFields(fields: seq<Field>, path: string)
    requires forall i :: 0 <= i < |fields| ==> FieldRefs(fields[i], path) == Some([])
    ensures CollectFields(fields, path) == Some([])
  {
    if fields != [] {
      QuietFields(fields[1..], path);
      var none: seq<Reference> := [];
      assert none + none == none && FieldRefs(fields[0], path) == Some([]);
    }
  }

  const TAB_PATH := ROOT + ".skills[0].artifact"

  lemma SkillCollects(path: string)
    ensures Collect(Skill(), path) == Some([Reference(StoredBlob(TAB_KEY, DigestText([]), 0), path + ".artifact")])
  {
    hide HasBlobShape, ValidBlob, BlobOf, TabBlob;
    TabBlobIsValid();
    var fields := Skill().fields;
    assert fields == [Field("artifact", Obj(TabBlob()))] && fields[1..] == [];
    assert !HasBlobShape(fields) by { NoKeyIsNoBlob(fields); }
    var at := path + "." + "artifact";
    assert at == path + ".artifact";
    assert CollectFields(fields[1..], path) == Some([]);
    var one := [Reference(StoredBlob(TAB_KEY, DigestText([]), 0), at)];
    assert Collect(Obj(TabBlob()), at) == Some(one);
    assert one + [] == one;
  }

  lemma NoKeyIsNoBlob(fields: seq<Field>)
    requires forall i :: 0 <= i < |fields| ==> fields[i].key != "key"
    ensures !HasBlobShape(fields)
  {
  }

  lemma SkillsCollect()
    ensures Collect(Arr([Skill()]), ROOT + ".skills") == Some([Reference(StoredBlob(TAB_KEY, DigestText([]), 0), TAB_PATH)])
  {
    hide Skill;
    var path := ROOT + ".skills" + "[" + Decimal(0) + "]";
    assert Decimal(0) == "0";
    assert path + ".artifact" == TAB_PATH;
    SkillCollects(path);
    var items := [Skill()];
    assert items[1..] == [] && CollectItems(items[1..], ROOT + ".skills", 1) == Some([]);
    var one := [Reference(StoredBlob(TAB_KEY, DigestText([]), 0), TAB_PATH)];
    assert one + [] == one;
  }

  lemma PolicyIsQuiet(path: string)
    ensures Collect(Policy(), path) == Some([])
  {
    var f := Policy().fields;
    assert |"key"| == 3;
    NoKeyIsNoBlob(f);
    forall i | 0 <= i < |f|
      ensures FieldRefs(f[i], path) == Some([])
    {
    }
    QuietFields(f, path);
  }

  lemma TabStateCollects()
    ensures Collect(TabState(), ROOT) == Some([Reference(StoredBlob(TAB_KEY, DigestText([]), 0), TAB_PATH)])
  {
    hide Policy, Skill, HasBlobShape, CollectFields;
    var f := TabFields();
    forall i | 0 <= i < |f|
      ensures f[i].key != "key"
    {
      TabFieldNames(i);
    }
    NoKeyIsNoBlob(f);
    var version, policy, skills := Field("schemaVersion", Num("1")), Field("policy", Policy()), Field("skills", Arr([Skill()]));
    var rest := EmptyCollections(COLLECTIONS[1..]);
    var one := [Reference(StoredBlob(TAB_KEY, DigestText([]), 0), TAB_PATH)];
    assert f == [version] + ([policy] + ([skills] + rest));
    CollectionsAreQuiet(COLLECTIONS[1..]);
    SkillsFieldCollects(skills);
    PolicyIsQuiet(ROOT + "." + "policy");
    CollectFirst(skills, rest, ROOT);
    CollectNext(policy, [skills] + rest, ROOT);
    CollectNext(version, [policy] + ([skills] + rest), ROOT);
    assert CollectFields(f, ROOT) == Some(one);
  }

  lemma SkillsFieldCollects(skills: Field)
    requires skills == Field("skills", Arr([Skill()]))
    ensures FieldRefs(skills, ROOT) == Some([Reference(StoredBlob(TAB_KEY, DigestText([]), 0), TAB_PATH)])
  {
    hide Collect, Skill;
    SkillsCollect();
    assert ROOT + "." + "skills" == ROOT + ".skills";
  }

  lemma CollectionsAreQuiet(keys: seq<string>)
    ensures CollectFields(EmptyCollections(keys), ROOT) == Some([])
  {
    QuietFields(EmptyCollections(keys), ROOT);
  }

  /** A field before others that hold no references. */
  lemma CollectFirst(f: Field, rest: seq<Field>, path: string)
    requires FieldRefs(f, path).Some? && CollectFields(rest, path) == Some([])
    ensures CollectFields([f] + rest, path) == FieldRefs(f, path)
  {
    hide Collect;
    assert ([f] + rest)[1..] == rest;
    var refs := FieldRefs(f, path).value;
    assert refs + [] == refs;
  }

  /** A field without references before others. */
  lemma CollectNext(f: Field, rest: seq<Field>, path: string)
    requires FieldRefs(f, path) == Some([]) && CollectFields(rest, path).Some?
    ensures CollectFields([f] + rest, path) == CollectFields(rest, path)
  {
    hide Collect;
    assert ([f] + rest)[1..] == rest;
    var refs := CollectFields(rest, path).value;
    var none: seq<Reference> := [];
    assert none + refs == refs;
  }

  lemma TabIsUnreadable()
    ensures !NonEmpty(TAB_KEY)
  {
    assert TAB_KEY[1] == '\t' && ControlChar('\t') && TAB_KEY[1] in TAB_KEY;
  }

  /** A registry state that is captured, and whose every backup is refused: its one key holds a tab. */
  lemma TabKeyIsCapturedNotRead(organization: string, limit: nat, m: Manifest)
    requires m.state == TabState()
    ensures RegistryShape(TabState())
    ensures Capturable(RegistryShape, organization, TabState(), map[TAB_KEY := []], limit)
    ensures !ManifestOk(RegistryShape, m, limit)
  {
    hide ManifestOk, NonEmpty, PlainText, RegistryShape, TabState;
    TabStateHasShape();
    TabStateCollects();
    var refs := Collect(TabState(), ROOT).value;
    var r := refs[0];
    TabIsUnreadable();
    assert r in refs && !ReadableReference(r, refs);
    UnreadableStateIsRefused(RegistryShape, m, limit);
    TabStateIsCapturable(organization, limit, r);
  }

  lemma TabStateIsCapturable(organization: string, limit: nat, r: Reference)
    requires Collect(TabState(), ROOT) == Some([r]) && r.blob == StoredBlob(TAB_KEY, DigestText([]), 0)
    ensures Capturable(RegistryShape, organization, TabState(), map[TAB_KEY := []], limit)
  {
    hide Collect, IsGrouping, ValidState, OwnedBy, TabState;
    var refs := [r];
    GroupedSpec(refs);
    assert refs[..0] == [] && Grouped(refs[..0]) == [];
    var g := Group(TAB_KEY, [r]);
    assert Grouped(refs) == [g];
    assert GroupSizes([g]) == [0];
    assert [0 as nat][..0] == [] && Sum([0]) == 0;
    TabStateIsValid();
    TabStateIsOwned(organization);
    assert Held(g, map[TAB_KEY := []]);
  }

  lemma TabStateIsValid()
    ensures ValidState(RegistryShape, TabState())
  {
    hide RegistryShape, Find, TabFields;
    TabStateHasShape();
    forall i | 0 <= i < |TabFields()|
      ensures TabFields()[i].key != REVISION
    {
      TabFieldNames(i);
    }
  }

  lemma TabStateIsOwned(organization: string)
    ensures OwnedBy(TabState(), organization)
  {
    hide Find;
    var f := TabFields();
    assert |ORGANIZATION| == 14 && |"artifact"| == 8 && |"key"| == 3 && |"digest"| == 6 && |"size"| == 4;
    assert !Has(TabBlob(), ORGANIZATION) && !Has(Skill().fields, ORGANIZATION);
    assert forall i :: 0 <= i < |TabBlob()| ==> OwnedBy(TabBlob()[i].value, organization);
    assert OwnedBy(Obj(TabBlob()), organization);
    assert OwnedBy(Skill(), organization);
    PolicyIsOwned(organization);
    forall i | 0 <= i < |f|
      ensures f[i].key != ORGANIZATION && OwnedBy(f[i].value, organization)
    {
      TabFieldNames(i);
    }
  }

  lemma PolicyIsOwned(organization: string)
    ensures OwnedBy(Policy(), organization)
  {
    hide Find;
    var f := Policy().fields;
    assert |ORGANIZATION| == 14 && ORGANIZATION[0] == 'o' && "allowUnscanned"[0] == 'a';
    assert |"revision"| == 8 && |"scanners"| == 8 && |"evidenceMaxAgeSeconds"| == 21;
    assert forall i :: 0 <= i < |f| ==> f[i].key != ORGANIZATION && OwnedBy(f[i].value, organization);
  }
}
