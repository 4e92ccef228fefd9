/**
 The bundle wire format: acceptance, canonical text and decoding.

 A file carries its decoded bytes; the wire carries them as base64. Unicode normalisation is a
 parameter `nfc`, of which nothing is assumed, and the JSON parser is a parameter `parse`, of which
 only that it reads back what the printer writes.
 */
module BundleFormat {
  import opened Options
  import opened Order
  import opened Digest
  import opened Paths
  import opened PathRules
  import opened SkillTree
  import opened Json

  const BUNDLE_FORMAT := "pskills-bundle-v1"
  const MAX_EXPANDED_BYTES := 100 * 1024 * 1024
  const MAX_FILE_BYTES := 10 * 1024 * 1024
  const MAX_FILES := 2000

  function PathKey(f: BundleFile): string { f.path }

  // ---------------------------------------------------------------- acceptance

  function TotalBytes(b: Bundle): nat {
    if b == [] then 0 else |b[0].content| + TotalBytes(b[1..])
  }

  datatype BundleError =
    Empty | TooManyFiles | InvalidPath | DuplicatePath | CaseCollision | FileTooLarge | TooLarge | MissingSkillFile

  datatype Validation = Valid(total: nat) | Invalid(error: BundleError)

  ghost predicate NoCollision(b: Bundle) {
    forall i, j :: 0 <= i < j < |b| ==> AsciiLower(b[i].path) != AsciiLower(b[j].path)
  }

  ghost predicate FileOk(f: BundleFile) {
    ValidPath(f.path) && |f.content| <= MAX_FILE_BYTES
  }

  ghost predicate HasSkillFile(b: Bundle) {
    exists f :: f in b && f.path == "SKILL.md"
  }

  /** Acceptance, said of the whole bundle at once. */
  ghost predicate Accepted(b: Bundle) {
    && b != [] && |b| <= MAX_FILES
    && (forall f :: f in b ==> FileOk(f))
    && DistinctPaths(b)
    && NoCollision(b)
    && TotalBytes(b) <= MAX_EXPANDED_BYTES
    && HasSkillFile(b)
  }

  /** Acceptance, rule by rule, in the terms of the files alone. */
  ghost predicate Admitted(b: Bundle) {
    && 1 <= |b| <= 2000
    && (forall f :: f in b ==> !BadPath(f.path) && |f.content| <= 10_485_760)
    && (forall i, j :: 0 <= i < j < |b| ==> !SameButCase(b[i].path, b[j].path))
    && TotalBytes(b) <= 104_857_600
    && (exists f :: f in b && f.path == "SKILL.md")
  }

  /** What each refusal says about the bundle. */
  ghost predicate Reason(b: Bundle, e: BundleError) {
    match e
    case Empty => |b| == 0
    case TooManyFiles => |b| > 2000
    case InvalidPath => exists f :: f in b && BadPath(f.path)
    case DuplicatePath => exists i, j :: 0 <= i < j < |b| && b[i].path == b[j].path
    case CaseCollision => exists i, j :: 0 <= i < j < |b| && b[i].path != b[j].path && SameButCase(b[i].path, b[j].path)
    case FileTooLarge => exists f :: f in b && |f.content| > 10_485_760
    case TooLarge => TotalBytes(b) > 104_857_600
    case MissingSkillFile => forall f :: f in b ==> f.path != "SKILL.md"
  }

  lemma AdmittedIff(b: Bundle)
    ensures Accepted(b) <==> Admitted(b)
  {
    hide ValidPath, BadPath, SameButCase;
    forall f | f in b
      ensures ValidPath(f.path) <==> !BadPath(f.path)
    {
      PathAcceptedIff(f.path);
    }
    forall i, j | 0 <= i < j < |b|
      ensures SameButCase(b[i].path, b[j].path) <==> AsciiLower(b[i].path) == AsciiLower(b[j].path)
    {
      SameButCaseIff(b[i].path, b[j].path);
    }
  }

  lemma {:induction false} TotalSplit(b: Bundle, i: nat)
    requires i < |b|
    ensures TotalBytes(b[..i + 1]) == TotalBytes(b[..i]) + |b[i].content|
    ensures TotalBytes(b[..i + 1]) <= TotalBytes(b)
    decreases i
  {
    if i == 0 {
      assert b[..1] == [b[0]];
      assert b[..0] == [];
    } else {
      TotalSplit(b[1..], i - 1);
      assert b[..i + 1][1..] == b[1..][..i];
      assert b[..i][1..] == b[1..][..i - 1];
    }
  }

  ghost function PathsBefore(b: Bundle, n: nat): set<string>
    requires n <= |b|
  {
    set k | 0 <= k < n :: b[k].path
  }

  ghost function FoldedBefore(b: Bundle, n: nat): set<string>
    requires n <= |b|
  {
    set k | 0 <= k < n :: AsciiLower(b[k].path)
  }

  /** File `i` passes every check against the files before it. */
  ghost predicate Fits(b: Bundle, i: nat)
    requires i < |b|
  {
    && FileOk(b[i])
    && b[i].path !in PathsBefore(b, i)
    && AsciiLower(b[i].path) !in FoldedBefore(b, i)
    && TotalBytes(b[..i + 1]) <= MAX_EXPANDED_BYTES
  }

  lemma FitsIffAccepted(b: Bundle)
    ensures Accepted(b) <==>
      b != [] && |b| <= MAX_FILES && (forall i :: 0 <= i < |b| ==> Fits(b, i)) && "SKILL.md" in PathsBefore(b, |b|)
  {
    hide ValidPath;
    if Accepted(b) {
      forall i | 0 <= i < |b|
        ensures Fits(b, i)
      {
        assert b[i] in b;
        TotalSplit(b, i);
      }
      var f :| f in b && f.path == "SKILL.md";
      var k :| 0 <= k < |b| && b[k] == f;
    }
    if b != [] && (forall i :: 0 <= i < |b| ==> Fits(b, i)) && "SKILL.md" in PathsBefore(b, |b|) {
      forall i, j | 0 <= i < j < |b|
        ensures b[i].path != b[j].path && AsciiLower(b[i].path) != AsciiLower(b[j].path)
      {
        assert Fits(b, j);
        assert b[i].path in PathsBefore(b, j) && AsciiLower(b[i].path) in FoldedBefore(b, j);
      }
      forall f | f in b
        ensures FileOk(f)
      {
        var i :| 0 <= i < |b| && b[i] == f;
        assert Fits(b, i);
      }
      assert Fits(b, |b| - 1) && b[..|b|] == b;
      var k :| 0 <= k < |b| && b[k].path == "SKILL.md";
      assert b[k] in b;
    }
  }

  /**
   `validate_bundle`: one pass with running sets and a running total. It accepts exactly the
   bundles that are acceptable as a whole, and then returns their total size.
   */
  method ValidateBundle(b: Bundle) returns (r: Validation)
    ensures r.Valid? <==> Accepted(b)
    ensures r.Valid? <==> Admitted(b)
    ensures r.Valid? ==> r.total == TotalBytes(b)
    ensures r.Invalid? ==> Reason(b, r.error)
  {
    hide ValidPath, Accepted, Admitted, BadPath, SameButCase;
    FitsIffAccepted(b);
    AdmittedIff(b);
    if b == [] { return Invalid(Empty); }
    if |b| > MAX_FILES { return Invalid(TooManyFiles); }
    var exact: set<string> := {};
    var insensitive: set<string> := {};
    var total := 0;
    var skill := false;
    var i := 0;
    assert b[..0] == [];
    while i < |b|
      invariant 0 <= i <= |b|
      invariant exact == PathsBefore(b, i) && insensitive == FoldedBefore(b, i)
      invariant forall k :: 0 <= k < i ==> Fits(b, k)
      invariant total == TotalBytes(b[..i])
      invariant skill <==> "SKILL.md" in PathsBefore(b, i)
    {
      var file := b[i];
      TotalSplit(b, i);
      assert file in b;
      PathAcceptedIff(file.path);
      if !ValidPath(file.path) { assert !Fits(b, i); return Invalid(InvalidPath); }
      if file.path in exact { assert !Fits(b, i); return Invalid(DuplicatePath); }
      exact := exact + {file.path};
      assert exact == PathsBefore(b, i + 1);
      if AsciiLower(file.path) in insensitive {
        assert !Fits(b, i);
        var k :| 0 <= k < i && AsciiLower(b[k].path) == AsciiLower(file.path);
        SameButCaseIff(b[k].path, file.path);
        assert b[k].path in PathsBefore(b, i);
        return Invalid(CaseCollision);
      }
      insensitive := insensitive + {AsciiLower(file.path)};
      assert insensitive == FoldedBefore(b, i + 1);
      if |file.content| > MAX_FILE_BYTES { assert !Fits(b, i); return Invalid(FileTooLarge); }
      total := total + |file.content|;
      if total > MAX_EXPANDED_BYTES { assert !Fits(b, i); return Invalid(TooLarge); }
      if file.path == "SKILL.md" { skill := true; }
      i := i + 1;
    }
    assert b[..|b|] == b;
    if !skill { return Invalid(MissingSkillFile); }
    return Valid(total);
  }

  // ---------------------------------------------------------------- acceptance ignores order

  lemma {:induction false} InsertTotal(f: BundleFile, b: Bundle)
    ensures TotalBytes(Insert(f, b, PathKey)) == |f.content| + TotalBytes(b)
  {
    if b != [] && !Leq(f.path, b[0].path) {
      InsertTotal(f, b[1..]);
    }
  }

  lemma {:induction false} SortTotal(b: Bundle)
    ensures TotalBytes(SortBy(b, PathKey)) == TotalBytes(b)
  {
    if b != [] {
      SortTotal(b[1..]);
      InsertTotal(b[0], SortBy(b[1..], PathKey));
    }
  }

  /** Distinct keys and the set of members determine pairwise facts about keys. */
  lemma CollisionIgnoresOrder(b: Bundle, c: Bundle)
    requires forall f :: f in b <==> f in c
    requires DistinctPaths(b) && DistinctPaths(c)
    requires NoCollision(b)
    ensures NoCollision(c)
  {
    forall i, j | 0 <= i < j < |c|
      ensures AsciiLower(c[i].path) != AsciiLower(c[j].path)
    {
      assert c[i] in c && c[j] in c && c[i].path != c[j].path;
      assert c[i] in b && c[j] in b;
      var k :| 0 <= k < |b| && b[k] == c[i];
      var l :| 0 <= l < |b| && b[l] == c[j];
      assert k != l;
      if k < l { assert AsciiLower(b[k].path) != AsciiLower(b[l].path); }
      else { assert AsciiLower(b[l].path) != AsciiLower(b[k].path); }
    }
  }

  lemma DistinctSorted(b: Bundle)
    requires DistinctPaths(b)
    ensures DistinctPaths(SortBy(b, PathKey))
    ensures StrictlySorted(SortBy(b, PathKey), PathKey)
  {
    forall i, j | 0 <= i < j < |b| ensures PathKey(b[i]) != PathKey(b[j]) { }
    SortByStrict(b, PathKey);
    var s := SortBy(b, PathKey);
    forall i, j | 0 <= i < j < |s|
      ensures s[i].path != s[j].path
    {
      assert Less(PathKey(s[i]), PathKey(s[j]));
    }
  }

  lemma AcceptanceSurvivesSorting(b: Bundle)
    requires Accepted(b)
    ensures Accepted(SortBy(b, PathKey))
  {
    var s := SortBy(b, PathKey);
    SortByMembers(b, PathKey);
    SortTotal(b);
    DistinctSorted(b);
    CollisionIgnoresOrder(b, s);
  }

  function SkipAt<T>(s: seq<T>, k: nat): seq<T>
    requires k < |s|
  {
    s[..k] + s[k + 1..]
  }

  /** A rearrangement starts by moving some element to the front. */
  lemma FirstMoved<T>(b: seq<T>, c: seq<T>) returns (k: nat)
    requires b != [] && multiset(b) == multiset(c)
    ensures k < |c| && c[k] == b[0]
    ensures multiset(b[1..]) == multiset(SkipAt(c, k))
  {
    assert b[0] in multiset(b) && b[0] in multiset(c);
    k :| 0 <= k < |c| && c[k] == b[0];
    assert c == c[..k] + ([c[k]] + c[k + 1..]);
    assert b == [b[0]] + b[1..];
    assert multiset(b) == multiset{b[0]} + multiset(b[1..]);
    assert multiset(c) == multiset{c[k]} + multiset(SkipAt(c, k));
    assert multiset(b[1..]) == multiset(b) - multiset{b[0]};
    assert multiset(SkipAt(c, k)) == multiset(c) - multiset{b[0]};
  }

  lemma {:induction false} TotalWithout(c: Bundle, k: nat)
    requires k < |c|
    ensures TotalBytes(c) == |c[k].content| + TotalBytes(SkipAt(c, k))
  {
    if k == 0 {
      assert SkipAt(c, 0) == c[1..];
    } else {
      TotalWithout(c[1..], k - 1);
      assert SkipAt(c, k)[1..] == SkipAt(c[1..], k - 1);
    }
  }

  lemma {:induction false} TotalIgnoresOrder(b: Bundle, c: Bundle)
    requires multiset(b) == multiset(c)
    ensures TotalBytes(b) == TotalBytes(c) && |b| == |c|
  {
    if b == [] {
      assert |multiset(c)| == 0;
    } else {
      var k := FirstMoved(b, c);
      TotalIgnoresOrder(b[1..], SkipAt(c, k));
      TotalWithout(c, k);
    }
  }

  lemma {:induction false} DistinctIgnoresOrder(b: Bundle, c: Bundle)
    requires multiset(b) == multiset(c)
    requires DistinctPaths(b)
    ensures DistinctPaths(c)
  {
    if b == [] {
      assert |multiset(c)| == 0;
    } else {
      var k := FirstMoved(b, c);
      var w := SkipAt(c, k);
      DistinctIgnoresOrder(b[1..], w);
      forall i, j | 0 <= i < j < |c|
        ensures c[i].path != c[j].path
      {
        var i', j' := if i < k then i else i - 1, if j < k then j else j - 1;
        if i == k {
          RestDiffers(b, w, j');
        } else if j == k {
          RestDiffers(b, w, i');
        } else {
          assert c[i] == w[i'] && c[j] == w[j'];
        }
      }
    }
  }

  lemma RestDiffers(b: Bundle, w: Bundle, j: nat)
    requires b != [] && DistinctPaths(b) && multiset(b[1..]) == multiset(w) && j < |w|
    ensures w[j].path != b[0].path
  {
    assert w[j] in multiset(w) && w[j] in multiset(b[1..]);
    var l :| 0 <= l < |b[1..]| && b[1..][l] == w[j];
    assert b[l + 1] == w[j];
  }

  lemma SameMembers<T>(b: seq<T>, c: seq<T>)
    requires multiset(b) == multiset(c)
    ensures forall f :: f in b <==> f in c
  {
    assert forall f :: f in b <==> f in multiset(b);
    assert forall f :: f in c <==> f in multiset(c);
  }

  /** Acceptance does not depend on the order of the files. */
  lemma AcceptanceIgnoresOrder(b: Bundle, c: Bundle)
    requires multiset(b) == multiset(c) && Accepted(b)
    ensures Accepted(c)
  {
    SameMembers(b, c);
    TotalIgnoresOrder(b, c);
    DistinctIgnoresOrder(b, c);
    CollisionIgnoresOrder(b, c);
  }

  // ---------------------------------------------------------------- base64

  function Digit64(n: int): (c: char)
    requires 0 <= n < 64
    ensures c != '='
  {
    if n < 26 then (n + 65) as char
    else if n < 52 then (n + 71) as char
    else if n < 62 then (n - 4) as char
    else if n == 62 then '+' else '/'
  }

  lemma Digit64Injective(a: int, b: int)
    requires 0 <= a < 64 && 0 <= b < 64 && Digit64(a) == Digit64(b)
    ensures a == b
  {
  }

  /** Canonical base64, section 4 of RFC 4648. */
  function Encode64(b: Bytes): string {
    if |b| == 0 then ""
    else if |b| == 1 then [Digit64(b[0] / 4), Digit64(b[0] % 4 * 16), '=', '=']
    else if |b| == 2 then
      [Digit64(b[0] / 4), Digit64(b[0] % 4 * 16 + b[1] / 16), Digit64(b[1] % 16 * 4), '=']
    else
      [Digit64(b[0] / 4), Digit64(b[0] % 4 * 16 + b[1] / 16),
       Digit64(b[1] % 16 * 4 + b[2] / 64), Digit64(b[2] % 64)] + Encode64(b[3..])
  }

  /** One group of three bytes is read back from its four digits. */
  lemma GroupIsUnique(a: Byte, b: Byte, c: Byte, x: Byte, y: Byte, z: Byte)
    requires Digit64(a / 4) == Digit64(x / 4)
    requires Digit64(a % 4 * 16 + b / 16) == Digit64(x % 4 * 16 + y / 16)
    requires Digit64(b % 16 * 4 + c / 64) == Digit64(y % 16 * 4 + z / 64)
    requires Digit64(c % 64) == Digit64(z % 64)
    ensures a == x && b == y && c == z
  {
    Digit64Injective(a / 4, x / 4);
    Digit64Injective(a % 4 * 16 + b / 16, x % 4 * 16 + y / 16);
    Digit64Injective(b % 16 * 4 + c / 64, y % 16 * 4 + z / 64);
    Digit64Injective(c % 64, z % 64);
  }

  lemma {:induction false} Encode64Injective(a: Bytes, b: Bytes)
    requires Encode64(a) == Encode64(b)
    ensures a == b
    decreases |a|
  {
    hide Digit64;
    var x, y := Encode64(a), Encode64(b);
    if |a| > 0 && |b| > 0 {
      assert x[0] == y[0] && x[1] == y[1] && x[2] == y[2] && x[3] == y[3];
      if |a| >= 3 && |b| >= 3 {
        GroupIsUnique(a[0], a[1], a[2], b[0], b[1], b[2]);
        assert Encode64(a[3..]) == x[4..] == y[4..] == Encode64(b[3..]);
        Encode64Injective(a[3..], b[3..]);
        assert a == [a[0], a[1], a[2]] + a[3..] && b == [b[0], b[1], b[2]] + b[3..];
      } else if |a| == 2 && |b| == 2 {
        GroupIsUnique(a[0], a[1], 0, b[0], b[1], 0);
      } else if |a| == 1 && |b| == 1 {
        GroupIsUnique(a[0], 0, 0, b[0], 0, 0);
      }
    }
  }

  // ---------------------------------------------------------------- the wire text

  function FileJson(f: BundleFile): Json {
    Obj([Field("path", Str(f.path)), Field("content", Str(Encode64(f.content)))] +
        if f.executable.Some? then [Field("executable", Bool(f.executable.value))] else [])
  }

  function BundleJson(b: Bundle): Json {
    Obj([Field("format", Str(BUNDLE_FORMAT)),
         Field("files", Arr(seq(|b|, i requires 0 <= i < |b| => FileJson(b[i]))))])
  }

  function WireText(b: Bundle): string {
    Print(BundleJson(b))
  }

  lemma FileJsonInjective(f: BundleFile, g: BundleFile)
    requires FileJson(f) == FileJson(g)
    ensures f == g
  {
    var x, y := FileJson(f).fields, FileJson(g).fields;
    assert x[0] == y[0] && x[1] == y[1] && |x| == |y|;
    if |x| == 3 { assert x[2] == y[2]; }
    Encode64Injective(f.content, g.content);
  }

  lemma BundleJsonWellFormed(b: Bundle)
    ensures WellFormed(BundleJson(b))
  {
    forall f: BundleFile
      ensures WellFormed(FileJson(f))
    {
      var x := FileJson(f).fields;
      assert x[0].key == "path" && x[1].key == "content" && (|x| == 3 ==> x[2].key == "executable");
    }
    var items := seq(|b|, i requires 0 <= i < |b| => FileJson(b[i]));
    assert forall i :: 0 <= i < |items| ==> items[i] == FileJson(b[i]);
    assert WellFormed(Arr(items));
    assert "format" != "files";
  }

  /** Different bundles have different wire texts. */
  lemma WireTextInjective(b: Bundle, c: Bundle)
    requires WireText(b) == WireText(c)
    ensures b == c
  {
    BundleJsonWellFormed(b);
    BundleJsonWellFormed(c);
    PrintInjective(BundleJson(b), BundleJson(c));
    var x := seq(|b|, i requires 0 <= i < |b| => FileJson(b[i]));
    var y := seq(|c|, i requires 0 <= i < |c| => FileJson(c[i]));
    assert BundleJson(b).fields[1].value == Arr(x) && BundleJson(c).fields[1].value == Arr(y);
    assert |b| == |x| == |y| == |c|;
    forall i | 0 <= i < |b|
      ensures b[i] == c[i]
    {
      assert x[i] == FileJson(b[i]) && y[i] == FileJson(c[i]);
      FileJsonInjective(b[i], c[i]);
    }
  }

  // ---------------------------------------------------------------- canonical text and decoding

  function Normalized(b: Bundle, nfc: string -> string): (r: Bundle)
    ensures |r| == |b|
  {
    seq(|b|, i requires 0 <= i < |b| => b[i].(path := nfc(b[i].path)))
  }

  /** `validate_bundle` also insists that paths are normalised. */
  ghost predicate AcceptedNfc(b: Bundle, nfc: string -> string) {
    Accepted(b) && forall f :: f in b ==> nfc(f.path) == f.path
  }

  /** `canonical_bundle_bytes`: normalise, validate, sort, print. */
  ghost function Canonical(b: Bundle, nfc: string -> string): Option<string> {
    var n := Normalized(b, nfc);
    if AcceptedNfc(n, nfc) then Some(WireText(SortBy(n, PathKey))) else None
  }

  /** `decode_bundle_bytes`: parse, normalise, validate, compare with the canonical text. */
  ghost function Decode(text: string, parse: string -> Option<Bundle>, nfc: string -> string): Option<Bundle> {
    match parse(text)
    case None => None
    case Some(b) =>
      var n := Normalized(b, nfc);
      if AcceptedNfc(n, nfc) && Canonical(n, nfc) == Some(text) then Some(n) else None
  }

  /** The parser reads back what the printer writes; what else it accepts does not matter. */
  ghost predicate ReadsBack(parse: string -> Option<Bundle>) {
    forall b :: parse(WireText(b)) == Some(b)
  }

  lemma NormalizedFixpoint(b: Bundle, nfc: string -> string)
    requires forall f :: f in b ==> nfc(f.path) == f.path
    ensures Normalized(b, nfc) == b
  {
    forall i | 0 <= i < |b|
      ensures Normalized(b, nfc)[i] == b[i]
    {
      assert b[i] in b;
    }
  }

  lemma SortedIsAccepted(n: Bundle, nfc: string -> string)
    requires AcceptedNfc(n, nfc)
    ensures AcceptedNfc(SortBy(n, PathKey), nfc)
    ensures Normalized(SortBy(n, PathKey), nfc) == SortBy(n, PathKey)
    ensures SortBy(SortBy(n, PathKey), PathKey) == SortBy(n, PathKey)
  {
    var s := SortBy(n, PathKey);
    AcceptanceSurvivesSorting(n);
    SortByMembers(n, PathKey);
    NormalizedFixpoint(s, nfc);
    DistinctSorted(n);
    StrictlySortedDistinct(s, PathKey);
    SortByStrict(s, PathKey);
    SortByMembers(s, PathKey);
    StrictlySortedUnique(SortBy(s, PathKey), s, PathKey);
  }

  /** Decoding the canonical text of `b` gives the normalised files of `b` in path order. */
  lemma DecodeCanonical(b: Bundle, parse: string -> Option<Bundle>, nfc: string -> string)
    requires ReadsBack(parse)
    requires Canonical(b, nfc).Some?
    ensures Decode(Canonical(b, nfc).value, parse, nfc) == Some(SortBy(Normalized(b, nfc), PathKey))
  {
    var n := Normalized(b, nfc);
    var s := SortBy(n, PathKey);
    SortedIsAccepted(n, nfc);
    assert parse(WireText(s)) == Some(s);
  }

  /** Accepted text re-encodes to itself, and what it decodes to is normalised and sorted. */
  lemma DecodedReencodes(text: string, parse: string -> Option<Bundle>, nfc: string -> string)
    requires ReadsBack(parse)
    requires Decode(text, parse, nfc).Some?
    ensures
      var b := Decode(text, parse, nfc).value;
      && Canonical(b, nfc) == Some(text)
      && text == WireText(b)
      && SortBy(b, PathKey) == b
      && Normalized(b, nfc) == b
      && AcceptedNfc(b, nfc)
  {
    var b := Decode(text, parse, nfc).value;
    NormalizedFixpoint(b, nfc);
    var s := SortBy(b, PathKey);
    SortedIsAccepted(b, nfc);
    assert text == WireText(s);
    assert parse(text) == Some(s);
  }

  /** Decoding is injective: no bundle has two accepted encodings. */
  lemma DecodeInjective(t: string, u: string, parse: string -> Option<Bundle>, nfc: string -> string)
    requires ReadsBack(parse)
    requires Decode(t, parse, nfc).Some? && Decode(t, parse, nfc) == Decode(u, parse, nfc)
    ensures t == u
  {
    DecodedReencodes(t, parse, nfc);
    DecodedReencodes(u, parse, nfc);
  }

  lemma {:induction false} NormalizedIgnoresOrder(b: Bundle, c: Bundle, nfc: string -> string)
    requires multiset(b) == multiset(c)
    ensures multiset(Normalized(b, nfc)) == multiset(Normalized(c, nfc))
  {
    if b == [] {
      assert |multiset(c)| == 0;
    } else {
      var k := FirstMoved(b, c);
      NormalizedIgnoresOrder(b[1..], SkipAt(c, k), nfc);
      var n, m := Normalized(b, nfc), Normalized(c, nfc);
      assert n == [n[0]] + Normalized(b[1..], nfc);
      assert Normalized(SkipAt(c, k), nfc) == m[..k] + m[k + 1..];
      assert m == m[..k] + ([m[k]] + m[k + 1..]);
    }
  }

  /** The canonical text ignores the order in which the files are listed. */
  lemma CanonicalIgnoresOrder(b: Bundle, c: Bundle, nfc: string -> string)
    requires multiset(b) == multiset(c)
    ensures Canonical(b, nfc) == Canonical(c, nfc)
  {
    NormalizedIgnoresOrder(b, c, nfc);
    var n, m := Normalized(b, nfc), Normalized(c, nfc);
    SameMembers(n, m);
    if Accepted(n) { AcceptanceIgnoresOrder(n, m); }
    if Accepted(m) { AcceptanceIgnoresOrder(m, n); }
    if Accepted(n) {
      forall i, j | 0 <= i < j < |n| ensures PathKey(n[i]) != PathKey(n[j]) { }
      forall i, j | 0 <= i < j < |m| ensures PathKey(m[i]) != PathKey(m[j]) { }
      SortByIgnoresOrder(n, m, PathKey);
    }
  }

  // ---------------------------------------------------------------- digests

  lemma Utf8CharIsPrefixFree(c: char, d: char, x: Bytes, y: Bytes)
    requires Utf8Char(c) + x == Utf8Char(d) + y
    ensures c == d && x == y
  {
    var l, r := Utf8Char(c) + x, Utf8Char(d) + y;
    assert l[0] == r[0];
    assert Utf8Char(c)[0] == l[0] && Utf8Char(d)[0] == r[0];
    assert |Utf8Char(c)| == |Utf8Char(d)|;
    assert Utf8Char(c) == l[..|Utf8Char(c)|] && Utf8Char(d) == r[..|Utf8Char(d)|];
    assert x == l[|Utf8Char(c)|..] && y == r[|Utf8Char(d)|..];
    SameUtf8Char(c, d);
  }

  lemma SameUtf8Char(c: char, d: char)
    requires Utf8Char(c) == Utf8Char(d)
    ensures c == d
  {
    Utf8CharValue(c);
    Utf8CharValue(d);
  }

  /** The code point is read back from its bytes. */
  function FromUtf8(b: Bytes): int {
    if |b| == 1 then b[0]
    else if |b| == 2 then (b[0] as int - 0xC0) * 0x40 + (b[1] as int - 0x80)
    else if |b| == 3 then (b[0] as int - 0xE0) * 0x1000 + (b[1] as int - 0x80) * 0x40 + (b[2] as int - 0x80)
    else if |b| == 4 then (b[0] as int - 0xF0) * 0x4_0000 + (b[1] as int - 0x80) * 0x1000 + (b[2] as int - 0x80) * 0x40 + (b[3] as int - 0x80)
    else 0
  }

  lemma Utf8CharValue(c: char)
    ensures FromUtf8(Utf8Char(c)) == c as int
  {
    var n := c as int;
    var q := n / 0x40;
    var p := q / 0x40;
    assert n == q * 0x40 + n % 0x40 && q == p * 0x40 + q % 0x40 && p == p / 0x40 * 0x40 + p % 0x40;
    assert n / 0x1000 == p && n / 0x4_0000 == p / 0x40;
  }

  lemma {:induction false} Utf8Injective(s: string, t: string)
    requires Utf8(s) == Utf8(t)
    ensures s == t
  {
    if s != "" && t != "" {
      Utf8CharIsPrefixFree(s[0], t[0], Utf8(s[1..]), Utf8(t[1..]));
      Utf8Injective(s[1..], t[1..]);
      assert s == [s[0]] + s[1..] && t == [t[0]] + t[1..];
    }
  }

  /** `bundle_digest` of a bundle whose paths are normalised. */
  function BundleDigest(b: Bundle): string {
    DigestText(Utf8(WireText(SortBy(b, PathKey))))
  }

  /** Bundles with one digest hold the same files. */
  lemma DigestDecidesFiles(b: Bundle, c: Bundle)
    requires BundleDigest(b) == BundleDigest(c)
    ensures forall f :: f in b <==> f in c
  {
    var s, t := SortBy(b, PathKey), SortBy(c, PathKey);
    DigestInjective(Utf8(WireText(s)), Utf8(WireText(t)));
    Utf8Injective(WireText(s), WireText(t));
    WireTextInjective(s, t);
    SortByMembers(b, PathKey);
    SortByMembers(c, PathKey);
  }
}
