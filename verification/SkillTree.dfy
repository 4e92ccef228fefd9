/**
 A skill on disk: extracting a bundle into a directory, the journal entry that describes it, and
 the check that a directory still is what its entry says.
 */
module SkillTree {
  import opened Options
  import opened Order
  import opened Digest
  import opened Paths

  /** The files of a directory by relative path. */
  type Tree = map<string, Bytes>

  datatype BundleFile = BundleFile(path: string, content: Bytes, executable: Option<bool>)
  type Bundle = seq<BundleFile>

  datatype Content = Content(path: string, bytes: Bytes)
  datatype JournalFile = JournalFile(path: string, digest: string, size: nat)

  function ContentKey(c: Content): string { c.path }
  function FileKey(f: JournalFile): string { f.path }

  ghost predicate DistinctPaths(b: Bundle) {
    forall i, j :: 0 <= i < j < |b| ==> b[i].path != b[j].path
  }

  // ---------------------------------------------------------------- extraction

  /** Writing `path` fails when it, a directory of it or a file below it is already there. */
  predicate Blocked(t: Tree, path: string) {
    exists q :: q in t.Keys && (q == path || path + "/" <= q || q + "/" <= path)
  }

  datatype Extraction = Extracted(tree: Tree) | Conflict(path: string)

  /** `extract_bundle`, one file after the other into a directory that already holds `t`. */
  function Extract(t: Tree, files: Bundle): Extraction
    decreases files
  {
    if files == [] then Extracted(t)
    else
      var target := OnDisk(files[0].path);
      if Blocked(t, target) then Conflict(files[0].path)
      else Extract(t[target := files[0].content], files[1..])
  }

  /** No file sits where another file needs a directory, and no two files share a place. */
  predicate Compatible(p: string, q: string) {
    p != q && !(p + "/" <= q) && !(q + "/" <= p)
  }

  ghost predicate Extractable(files: Bundle) {
    forall i, j :: 0 <= i < j < |files| ==> Compatible(OnDisk(files[i].path), OnDisk(files[j].path))
  }

  ghost predicate FitsBeside(t: Tree, files: Bundle) {
    forall q, i :: q in t.Keys && 0 <= i < |files| ==> Compatible(q, OnDisk(files[i].path))
  }

  /** Some file of the bundle is written at `q`. */
  ghost predicate Places(files: Bundle, q: string) {
    exists i :: 0 <= i < |files| && OnDisk(files[i].path) == q
  }

  lemma PlacesCons(files: Bundle, q: string)
    requires files != []
    ensures Places(files, q) <==> q == OnDisk(files[0].path) || Places(files[1..], q)
  {
    var rest := files[1..];
    if i :| 0 <= i < |files| && OnDisk(files[i].path) == q {
      if i > 0 { assert rest[i - 1] == files[i]; }
    }
    if i :| 0 <= i < |rest| && OnDisk(rest[i].path) == q {
      assert files[i + 1] == rest[i];
    }
  }

  /** `t` holds what `base` held and the given files, and nothing else. */
  ghost predicate HoldsExactly(t: Tree, base: Tree, files: Bundle) {
    && (forall q :: q in t.Keys <==> q in base.Keys || Places(files, q))
    && (forall q :: q in base.Keys && q in t.Keys ==> t[q] == base[q])
    && (forall f :: f in files ==> OnDisk(f.path) in t.Keys && t[OnDisk(f.path)] == f.content)
  }

  /**
   Extraction succeeds exactly when the files fit beside each other and beside what is there,
   whatever their order, and then the directory holds exactly the files it held and these.
   */
  lemma {:induction false} ExtractSucceedsIff(t: Tree, files: Bundle)
    ensures Extract(t, files).Extracted? <==> Extractable(files) && FitsBeside(t, files)
    ensures Extract(t, files).Extracted? ==> HoldsExactly(Extract(t, files).tree, t, files)
    decreases files
  {
    if files != [] {
      var target := OnDisk(files[0].path);
      var t' := t[target := files[0].content];
      FitsCons(t, files);
      if !Blocked(t, target) {
        ExtractSucceedsIff(t', files[1..]);
        if Extract(t, files).Extracted? {
          ExtractHolds(t, files);
        }
      }
    }
  }

  /** Fitting, one file at a time. */
  lemma FitsCons(t: Tree, files: Bundle)
    requires files != []
    ensures
      var target := OnDisk(files[0].path);
      var t' := t[target := files[0].content];
      Extractable(files) && FitsBeside(t, files) <==>
      !Blocked(t, target) && Extractable(files[1..]) && FitsBeside(t', files[1..])
  {
    var target := OnDisk(files[0].path);
    var rest := files[1..];
    var t' := t[target := files[0].content];
    assert forall i :: 0 <= i < |rest| ==> rest[i] == files[i + 1];
    if Extractable(files) && FitsBeside(t, files) {
      assert forall q :: q in t.Keys ==> Compatible(q, OnDisk(files[0].path));
      forall q, i | q in t'.Keys && 0 <= i < |rest|
        ensures Compatible(q, OnDisk(rest[i].path))
      {
        assert rest[i] == files[i + 1];
      }
    }
    if !Blocked(t, target) && Extractable(rest) && FitsBeside(t', rest) {
      assert target in t'.Keys;
      forall i, j | 0 <= i < j < |files|
        ensures Compatible(OnDisk(files[i].path), OnDisk(files[j].path))
      {
        assert files[j] == rest[j - 1];
        if i > 0 { assert files[i] == rest[i - 1]; }
      }
      forall q, i | q in t.Keys && 0 <= i < |files|
        ensures Compatible(q, OnDisk(files[i].path))
      {
        if i > 0 { assert files[i] == rest[i - 1] && q in t'.Keys; }
      }
    }
  }

  lemma ExtractHolds(t: Tree, files: Bundle)
    requires files != [] && !Blocked(t, OnDisk(files[0].path))
    requires Extract(t, files).Extracted?
    requires
      var t' := t[OnDisk(files[0].path) := files[0].content];
      HoldsExactly(Extract(t, files).tree, t', files[1..])
    ensures HoldsExactly(Extract(t, files).tree, t, files)
  {
    var target := OnDisk(files[0].path);
    var t' := t[target := files[0].content];
    var r := Extract(t, files).tree;
    forall q
      ensures q in r.Keys <==> q in t.Keys || Places(files, q)
    {
      PlacesCons(files, q);
    }
    assert files == [files[0]] + files[1..];
    assert target in t'.Keys && target in r.Keys;
    assert target !in t.Keys;
    forall q | q in t.Keys && q in r.Keys
      ensures r[q] == t[q]
    {
      assert q in t'.Keys && t'[q] == t[q];
    }
  }

  // ---------------------------------------------------------------- the two views of a tree

  /** The files of a bundle by path order, `executable` aside. */
  function BundleContents(b: Bundle): seq<Content> {
    SortBy(seq(|b|, i requires 0 <= i < |b| => Content(b[i].path, b[i].content)), ContentKey)
  }

  /** The files found by walking a directory, by path order. */
  function DirectoryContents(t: Tree): seq<Content> {
    var paths := Listed(t.Keys);
    ListedSpec(t.Keys);
    seq(|paths|, i requires 0 <= i < |paths| => assert paths[i] in paths; Content(paths[i], t[paths[i]]))
  }

  /** The bytes that go into a tree digest: path, zero byte, content, zero byte. */
  function Stream(cs: seq<Content>): Bytes {
    if cs == [] then [] else Utf8(cs[0].path) + [0] + cs[0].bytes + [0] + Stream(cs[1..])
  }

  function TreeDigest(b: Bundle): string { DigestText(Stream(BundleContents(b))) }

  function DirectoryDigest(t: Tree): string { DigestText(Stream(DirectoryContents(t))) }

  function Manifest(cs: seq<Content>): seq<JournalFile> {
    seq(|cs|, i requires 0 <= i < |cs| => JournalFile(cs[i].path, DigestText(cs[i].bytes), |cs[i].bytes|))
  }

  // ---------------------------------------------------------------- journal keys

  const TREE_MARK := "|tree="

  function EntryKey(name: string, digest: string, tree: string): string {
    name + "@" + digest + TREE_MARK + tree
  }

  /** The text after the first `|tree=`, empty when there is none. */
  function TreeFromKey(key: string): string {
    if key == "" then ""
    else if TREE_MARK <= key then key[|TREE_MARK|..]
    else TreeFromKey(key[1..])
  }

  lemma {:induction false} TreeFromMarked(prefix: string, tree: string)
    requires '|' !in prefix
    ensures TreeFromKey(prefix + TREE_MARK + tree) == tree
  {
    var key := prefix + TREE_MARK + tree;
    if prefix == "" {
      assert TREE_MARK <= key;
      assert key[|TREE_MARK|..] == tree;
    } else {
      assert key[0] == prefix[0] != '|';
      assert TREE_MARK[0] == '|';
      assert key[1..] == prefix[1..] + TREE_MARK + tree;
      TreeFromMarked(prefix[1..], tree);
    }
  }

  /** The key round trip: it relies on `|` being barred from skill names and digests. */
  lemma TreeFromEntryKey(name: string, digest: string, tree: string)
    requires '|' !in name && '|' !in digest
    ensures TreeFromKey(EntryKey(name, digest, tree)) == tree
  {
    assert '|' !in name + "@" + digest;
    TreeFromMarked(name + "@" + digest, tree);
    assert EntryKey(name, digest, tree) == (name + "@" + digest) + TREE_MARK + tree;
  }

  // ---------------------------------------------------------------- verification

  datatype Verdict = Verified | NotInstalled | MissingTreeDigest | TreeMismatch | LocalEdits

  /** `verify_journal_entry`: tree digest first, then the file manifest. */
  function Check(key: string, files: seq<JournalFile>, installed: bool, t: Tree): Verdict {
    if !installed then NotInstalled
    else if TreeFromKey(key) == "" then MissingTreeDigest
    else if DirectoryDigest(t) != TreeFromKey(key) then TreeMismatch
    else if Manifest(DirectoryContents(t)) != SortBy(files, FileKey) then LocalEdits
    else Verified
  }

  lemma DirectoryContentsSpec(t: Tree)
    ensures StrictlySorted(DirectoryContents(t), ContentKey)
    ensures forall c :: c in DirectoryContents(t) <==> c.path in t.Keys && t[c.path] == c.bytes
  {
    ListedSpec(t.Keys);
    var paths := Listed(t.Keys);
    var cs := DirectoryContents(t);
    forall i, j | 0 <= i < j < |cs|
      ensures Less(ContentKey(cs[i]), ContentKey(cs[j]))
    {
      assert Less(Id(paths[i]), Id(paths[j]));
    }
    forall c
      ensures c in cs <==> c.path in t.Keys && t[c.path] == c.bytes
    {
      if c in cs {
        var i :| 0 <= i < |cs| && cs[i] == c;
        assert paths[i] in paths;
      }
      if c.path in t.Keys && t[c.path] == c.bytes {
        assert c.path in paths;
        var i :| 0 <= i < |paths| && paths[i] == c.path;
        assert cs[i] == c;
      }
    }
  }

  lemma DirectoryContentsInjective(t: Tree, u: Tree)
    requires DirectoryContents(t) == DirectoryContents(u)
    ensures t == u
  {
    DirectoryContentsSpec(t);
    DirectoryContentsSpec(u);
    forall q
      ensures q in t.Keys <==> q in u.Keys
      ensures q in t.Keys ==> t[q] == u[q]
    {
      if q in t.Keys { assert Content(q, t[q]) in DirectoryContents(t); }
      if q in u.Keys { assert Content(q, u[q]) in DirectoryContents(u); }
    }
  }

  lemma BundleContentsSpec(b: Bundle)
    requires DistinctPaths(b)
    ensures StrictlySorted(BundleContents(b), ContentKey)
    ensures forall c :: c in BundleContents(b) <==> exists i :: 0 <= i < |b| && b[i].path == c.path && b[i].content == c.bytes
  {
    var cs := seq(|b|, i requires 0 <= i < |b| => Content(b[i].path, b[i].content));
    SortByStrict(cs, ContentKey);
    SortByMembers(cs, ContentKey);
    forall c
      ensures c in BundleContents(b) <==> exists i :: 0 <= i < |b| && b[i].path == c.path && b[i].content == c.bytes
    {
      if c in BundleContents(b) {
        assert c in cs;
        var i :| 0 <= i < |cs| && cs[i] == c;
        assert b[i].path == c.path && b[i].content == c.bytes;
      }
      if i :| 0 <= i < |b| && b[i].path == c.path && b[i].content == c.bytes {
        assert cs[i] == c;
        assert c in cs;
      }
    }
  }

  /** The file manifest determines the contents: digests are collision free. */
  lemma ManifestInjective(a: seq<Content>, b: seq<Content>)
    requires Manifest(a) == Manifest(b)
    ensures a == b
  {
    assert |a| == |Manifest(a)| == |b|;
    forall i | 0 <= i < |a|
      ensures a[i] == b[i]
    {
      assert Manifest(a)[i] == Manifest(b)[i];
      DigestInjective(a[i].bytes, b[i].bytes);
    }
  }

  lemma ManifestIsSorted(cs: seq<Content>)
    requires StrictlySorted(cs, ContentKey)
    ensures SortBy(Manifest(cs), FileKey) == Manifest(cs)
  {
    var m := Manifest(cs);
    forall i, j | 0 <= i < j < |m|
      ensures Less(FileKey(m[i]), FileKey(m[j]))
    {
      assert Less(ContentKey(cs[i]), ContentKey(cs[j]));
    }
    StrictlySortedDistinct(m, FileKey);
    SortByStrict(m, FileKey);
    SortByMembers(m, FileKey);
    StrictlySortedUnique(SortBy(m, FileKey), m, FileKey);
  }

  /** A check against the entry of `b` passes for exactly the directories that hold `b`'s files. */
  lemma CheckPassesIff(name: string, digest: string, b: Bundle, t: Tree)
    requires DistinctPaths(b)
    requires '|' !in name && '|' !in digest
    ensures Check(EntryKey(name, digest, TreeDigest(b)), Manifest(BundleContents(b)), true, t) == Verified
            <==> DirectoryContents(t) == BundleContents(b)
  {
    TreeFromEntryKey(name, digest, TreeDigest(b));
    assert TreeDigest(b)[0] == 's';
    BundleContentsSpec(b);
    ManifestIsSorted(BundleContents(b));
    if Manifest(DirectoryContents(t)) == Manifest(BundleContents(b)) {
      ManifestInjective(DirectoryContents(t), BundleContents(b));
    }
  }

  /** The tree that holds every file of `b` at its own path. */
  ghost predicate Holds(t: Tree, b: Bundle) {
    && (forall q :: q in t.Keys ==> exists i :: 0 <= i < |b| && b[i].path == q)
    && (forall i :: 0 <= i < |b| ==> b[i].path in t.Keys && t[b[i].path] == b[i].content)
  }

  lemma HoldsIffSameContents(t: Tree, b: Bundle)
    requires DistinctPaths(b)
    ensures Holds(t, b) <==> DirectoryContents(t) == BundleContents(b)
  {
    DirectoryContentsSpec(t);
    BundleContentsSpec(b);
    if Holds(t, b) {
      forall c
        ensures c in DirectoryContents(t) <==> c in BundleContents(b)
      {
      }
      StrictlySortedUnique(DirectoryContents(t), BundleContents(b), ContentKey);
    }
    if DirectoryContents(t) == BundleContents(b) {
      forall q | q in t.Keys
        ensures exists i :: 0 <= i < |b| && b[i].path == q
      {
        assert Content(q, t[q]) in DirectoryContents(t);
      }
      forall i | 0 <= i < |b|
        ensures b[i].path in t.Keys && t[b[i].path] == b[i].content
      {
        assert Content(b[i].path, b[i].content) in BundleContents(b);
        assert Content(b[i].path, b[i].content) in DirectoryContents(t);
      }
    }
  }

  /** Every path names the file it reaches: no `.` hides inside it. */
  predicate Plain(b: Bundle) {
    forall f :: f in b ==> OnDisk(f.path) == f.path
  }

  ghost predicate Acceptable(b: Bundle) {
    && DistinctPaths(b)
    && forall f :: f in b ==> ValidPath(f.path)
  }

  /**
   Extraction agrees with verification exactly on plain bundles. For an accepted bundle that
   extracts into an empty directory, the entry built from the bundle verifies that directory if
   and only if no path of the bundle hides a `.` component.
   */
  lemma ExtractionVerifiesIff(name: string, digest: string, b: Bundle)
    requires Acceptable(b)
    requires '|' !in name && '|' !in digest
    requires Extract(map[], b).Extracted?
    ensures Check(EntryKey(name, digest, TreeDigest(b)), Manifest(BundleContents(b)), true, Extract(map[], b).tree) == Verified
            <==> Plain(b)
    ensures Plain(b) ==> Holds(Extract(map[], b).tree, b)
  {
    var t := Extract(map[], b).tree;
    CheckPassesIff(name, digest, b, t);
    HoldsIffSameContents(t, b);
    HeldAfterExtractionIff(b);
  }

  lemma HeldAfterExtractionIff(b: Bundle)
    requires DistinctPaths(b)
    requires forall f :: f in b ==> !LeadsWithDot(f.path)
    requires Extract(map[], b).Extracted?
    ensures Holds(Extract(map[], b).tree, b) <==> Plain(b)
  {
    ExtractSucceedsIff(map[], b);
    if Plain(b) {
      PlainIsHeld(b, Extract(map[], b).tree);
    } else {
      var f :| f in b && OnDisk(f.path) != f.path;
      HiddenDotIsNotHeld(b, Extract(map[], b).tree, f);
    }
  }

  lemma PlainIsHeld(b: Bundle, t: Tree)
    requires Plain(b) && HoldsExactly(t, map[], b)
    ensures Holds(t, b)
  {
    assert forall i :: 0 <= i < |b| ==> b[i] in b && OnDisk(b[i].path) == b[i].path;
    forall q | q in t.Keys
      ensures exists i :: 0 <= i < |b| && b[i].path == q
    {
      assert Places(b, q);
    }
  }

  lemma HiddenDotIsNotHeld(b: Bundle, t: Tree, f: BundleFile)
    requires forall f :: f in b ==> !LeadsWithDot(f.path)
    requires HoldsExactly(t, map[], b)
    requires f in b && OnDisk(f.path) != f.path
    ensures !Holds(t, b)
  {
    if f.path in t.Keys {
      assert Places(b, f.path);
      var j :| 0 <= j < |b| && OnDisk(b[j].path) == f.path;
      assert b[j] in b;
      OnDiskIdempotent(b[j].path);
    }
    var i :| 0 <= i < |b| && b[i] == f;
    assert b[i].path !in t.Keys;
  }

  /** The check decides content: a verified directory is the bundle's own file map. */
  lemma VerifiedTreesAgree(name: string, digest: string, b: Bundle, t: Tree, u: Tree)
    requires DistinctPaths(b)
    requires '|' !in name && '|' !in digest
    requires Check(EntryKey(name, digest, TreeDigest(b)), Manifest(BundleContents(b)), true, t) == Verified
    requires Check(EntryKey(name, digest, TreeDigest(b)), Manifest(BundleContents(b)), true, u) == Verified
    ensures t == u && Holds(t, b)
  {
    CheckPassesIff(name, digest, b, t);
    CheckPassesIff(name, digest, b, u);
    DirectoryContentsInjective(t, u);
    HoldsIffSameContents(t, b);
  }

  lemma HiddenDotParts()
    ensures Split("a/./b", '/') == ["a", ".", "b"]
    ensures WithoutDots(["a", ".", "b"]) == ["a", "b"]
    ensures OnDisk("a/./b") == "a/b"
  {
    var parts := ["a", ".", "b"];
    assert parts[1..] == [".", "b"] && parts[2..] == ["b"];
    assert Join(parts[1..], '/') == "./b";
    assert Join(parts, '/') == "a/./b";
    SplitJoin(parts, '/');
    assert WithoutDots(parts[2..]) == ["b"];
    assert WithoutDots(parts[1..]) == ["b"];
    assert Join(["a", "b"], '/') == "a/b";
  }

  lemma HiddenDotIsValid()
    ensures ValidPath("a/./b")
  {
    HiddenDotParts();
    SingleLetterIsValid('a');
    SingleLetterIsValid('b');
    ShortIsNotReserved("a");
    ShortIsNotReserved(".");
    ShortIsNotReserved("b");
    Utf16Bound("a/./b");
    assert forall p :: p in ["a", "b"] ==> ValidComponent(p);
  }

  lemma ShortIsNotReserved(p: string)
    requires |p| == 1
    ensures !AgentReserved(p)
  {
  }

  lemma SingleLetterIsValid(c: char)
    requires 'a' <= c <= 'b'
    ensures ValidComponent([c])
    ensures AsciiLower([c]) == [c]
  {
    SplitFree([c], '.');
    assert |Utf8([c])| == 1;
  }

  /** The digest stream alone does not decide content: two different trees share one digest. */
  lemma TreeDigestIsAmbiguous()
    ensures
      var t: Tree := map["a" := [1, 0, 98, 0, 2]];
      var u: Tree := map["a" := [1], "b" := [2]];
      t != u && DirectoryDigest(t) == DirectoryDigest(u)
  {
    var t: Tree := map["a" := [1, 0, 98, 0, 2]];
    var u: Tree := map["a" := [1], "b" := [2]];
    var ct, cu := [Content("a", [1, 0, 98, 0, 2])], [Content("a", [1]), Content("b", [2])];
    DirectoryContentsSpec(t);
    DirectoryContentsSpec(u);
    assert Less("a", "b");
    StrictlySortedUnique(DirectoryContents(t), ct, ContentKey);
    StrictlySortedUnique(DirectoryContents(u), cu, ContentKey);
    SameStream();
    assert "b" in u.Keys && "b" !in t.Keys;
  }

  lemma SameStream()
    ensures Stream([Content("a", [1, 0, 98, 0, 2])]) == Stream([Content("a", [1]), Content("b", [2])])
  {
    var ct, cu := [Content("a", [1, 0, 98, 0, 2])], [Content("a", [1]), Content("b", [2])];
    assert Utf8("a") == [97] && Utf8("b") == [98];
    assert Stream(ct[1..]) == [] && Stream(ct) == [97, 0, 1, 0, 98, 0, 2, 0];
    assert cu[1..][1..] == [];
    assert Stream(cu[1..]) == [98, 0, 2, 0];
    assert Stream(cu) == [97, 0, 1, 0, 98, 0, 2, 0];
  }
}
