/** What a tree digest decides: exactly when two trees, or two bundles, can share one. */
module TreeDigests {
  import opened Options
  import opened Order
  import opened Digest
  import opened Paths
  import opened SkillTree
  import opened BundleFormat

  // ---------------------------------------------------------------- zero bytes

  /** No file name holds a zero byte; no file system has others. */
  ghost predicate NamesHaveNoZero(t: Tree) {
    forall p :: p in t.Keys ==> '\0' !in p
  }

  /** No file holds a zero byte. */
  ghost predicate ContentsHaveNoZero(t: Tree) {
    forall p :: p in t.Keys ==> 0 !in t[p]
  }

  ghost predicate CleanNames(cs: seq<Content>) {
    forall i :: 0 <= i < |cs| ==> 0 !in Utf8(cs[i].path)
  }

  ghost predicate CleanBytes(cs: seq<Content>) {
    forall i :: 0 <= i < |cs| ==> 0 !in cs[i].bytes
  }

  lemma {:induction false} ZeroOnlyFromZero(s: string)
    requires '\0' !in s
    ensures 0 !in Utf8(s)
  {
    if s != "" {
      assert s[0] in s && forall c :: c in s[1..] ==> c in s;
      ZeroOnlyFromZero(s[1..]);
    }
  }

  lemma CleanContents(t: Tree)
    requires NamesHaveNoZero(t)
    ensures CleanNames(DirectoryContents(t))
    ensures ContentsHaveNoZero(t) <==> CleanBytes(DirectoryContents(t))
  {
    var cs := DirectoryContents(t);
    DirectoryContentsSpec(t);
    forall i | 0 <= i < |cs|
      ensures 0 !in Utf8(cs[i].path) && cs[i].path in t.Keys && t[cs[i].path] == cs[i].bytes
    {
      assert cs[i] in cs;
      ZeroOnlyFromZero(cs[i].path);
    }
    forall p | p in t.Keys
      ensures exists i :: 0 <= i < |cs| && cs[i] == Content(p, t[p])
    {
      assert Content(p, t[p]) in cs;
    }
  }

  // ---------------------------------------------------------------- reading a stream

  /** The text before the first zero byte is determined by the whole. */
  lemma FirstZero(a: Bytes, b: Bytes, x: Bytes, y: Bytes)
    requires a + [0] + b == x + [0] + y && 0 !in a && 0 !in x
    ensures a == x && b == y
  {
    var whole := a + [0] + b;
    assert whole[|a|] == 0 && (x + [0] + y)[|x|] == 0;
    assert forall k :: 0 <= k < |a| ==> whole[k] == a[k] && a[k] in a;
    assert forall k :: 0 <= k < |x| ==> (x + [0] + y)[k] == x[k] && x[k] in x;
    assert |a| == |x|;
    assert whole[..|a|] == a && (x + [0] + y)[..|x|] == x;
    assert whole[|a| + 1..] == b && (x + [0] + y)[|x| + 1..] == y;
  }

  lemma StreamStep(cs: seq<Content>)
    requires cs != []
    ensures Stream(cs) == Utf8(cs[0].path) + [0] + (cs[0].bytes + [0] + Stream(cs[1..]))
  {
  }

  lemma StreamIsLong(cs: seq<Content>)
    ensures cs == [] <==> Stream(cs) == []
  {
  }

  /** Streams of zero-free files are read back. */
  lemma {:induction false} StreamInjective(a: seq<Content>, b: seq<Content>)
    requires CleanNames(a) && CleanNames(b) && CleanBytes(a) && CleanBytes(b) && Stream(a) == Stream(b)
    ensures a == b
  {
    StreamIsLong(a);
    StreamIsLong(b);
    if a != [] {
      StreamStep(a);
      StreamStep(b);
      FirstZero(Utf8(a[0].path), a[0].bytes + [0] + Stream(a[1..]), Utf8(b[0].path), b[0].bytes + [0] + Stream(b[1..]));
      FirstZero(a[0].bytes, Stream(a[1..]), b[0].bytes, Stream(b[1..]));
      Utf8Injective(a[0].path, b[0].path);
      StreamInjective(a[1..], b[1..]);
      assert a == [a[0]] + a[1..] && b == [b[0]] + b[1..];
    }
  }

  lemma SameDigestSameStream(t: Tree, u: Tree)
    ensures DirectoryDigest(t) == DirectoryDigest(u) <==> Stream(DirectoryContents(t)) == Stream(DirectoryContents(u))
  {
    if DirectoryDigest(t) == DirectoryDigest(u) {
      DigestInjective(Stream(DirectoryContents(t)), Stream(DirectoryContents(u)));
    }
  }

  // ---------------------------------------------------------------- when the digest decides

  /** Against a tree without zero bytes, a tree with the same digest is the same exactly when it has none either. */
  lemma DigestDecidesIff(t: Tree, u: Tree)
    requires NamesHaveNoZero(t) && NamesHaveNoZero(u) && ContentsHaveNoZero(t)
    requires DirectoryDigest(t) == DirectoryDigest(u)
    ensures t == u <==> ContentsHaveNoZero(u)
  {
    SameDigestSameStream(t, u);
    CleanContents(t);
    CleanContents(u);
    if ContentsHaveNoZero(u) {
      StreamInjective(DirectoryContents(t), DirectoryContents(u));
      DirectoryContentsInjective(t, u);
    }
  }

  lemma BundleIsClean(b: Bundle)
    requires Accepted(b) && forall f :: f in b ==> 0 !in f.content
    ensures CleanNames(BundleContents(b)) && CleanBytes(BundleContents(b))
  {
    hide Accepted, ValidPath;
    var cs := BundleContents(b);
    assert DistinctPaths(b) && forall f :: f in b ==> FileOk(f) by { AcceptedFiles(b); }
    BundleContentsSpec(b);
    forall i | 0 <= i < |cs|
      ensures 0 !in Utf8(cs[i].path) && 0 !in cs[i].bytes
    {
      assert cs[i] in cs;
      var k :| 0 <= k < |b| && b[k].path == cs[i].path && b[k].content == cs[i].bytes;
      assert b[k] in b;
      ValidHasNoZero(b[k].path);
      ZeroOnlyFromZero(cs[i].path);
    }
  }

  lemma AcceptedFiles(b: Bundle)
    requires Accepted(b)
    ensures DistinctPaths(b) && forall f :: f in b ==> FileOk(f)
  {
  }

  lemma ValidHasNoZero(path: string)
    requires ValidPath(path)
    ensures '\0' !in path
  {
    assert IsControl('\0');
  }

  /** Accepted bundles without zero bytes in their files share a tree digest exactly when they hold the same files. */
  lemma TreeDigestDecidesIff(b: Bundle, c: Bundle)
    requires Accepted(b) && Accepted(c)
    requires (forall f :: f in b ==> 0 !in f.content) && (forall f :: f in c ==> 0 !in f.content)
    ensures TreeDigest(b) == TreeDigest(c) <==> BundleContents(b) == BundleContents(c)
  {
    hide Accepted, BundleContents;
    if TreeDigest(b) == TreeDigest(c) {
      DigestInjective(Stream(BundleContents(b)), Stream(BundleContents(c)));
      BundleIsClean(b);
      BundleIsClean(c);
      StreamInjective(BundleContents(b), BundleContents(c));
    }
  }

  // ---------------------------------------------------------------- when it does not

  /** The first two files written as one: the second goes into the content of the first. */
  function Merged(a: Content, b: Content): Content {
    Content(a.path, a.bytes + [0] + Utf8(b.path) + [0] + b.bytes)
  }

  lemma Regrouped(p: Bytes, x: Bytes, q: Bytes, y: Bytes, z: Bytes)
    ensures p + [0] + x + [0] + (q + [0] + y + [0] + z) == p + [0] + (x + [0] + q + [0] + y) + [0] + z
  {
    var l, r := p + [0] + x + [0] + (q + [0] + y + [0] + z), p + [0] + (x + [0] + q + [0] + y) + [0] + z;
    assert l == (p + [0] + x + [0] + q + [0] + y + [0]) + z;
    assert r == (p + [0] + x + [0] + q + [0] + y + [0]) + z;
  }

  lemma MergedStream(cs: seq<Content>)
    requires |cs| >= 2
    ensures Stream([Merged(cs[0], cs[1])] + cs[2..]) == Stream(cs)
  {
    hide Stream, Utf8;
    var m, rest := [Merged(cs[0], cs[1])] + cs[2..], cs[1..];
    assert m[1..] == cs[2..] && rest[1..] == cs[2..] && rest[0] == cs[1];
    StreamStep(cs);
    StreamStep(rest);
    StreamStep(m);
    Regrouped(Utf8(cs[0].path), cs[0].bytes, Utf8(cs[1].path), cs[1].bytes, Stream(cs[2..]));
  }

  /** The directory whose walk is the merged list. */
  lemma MergedTree(t: Tree) returns (u: Tree)
    requires |DirectoryContents(t)| >= 2
    ensures
      var cs := DirectoryContents(t);
      DirectoryContents(u) == [Merged(cs[0], cs[1])] + cs[2..]
    ensures u != t && (NamesHaveNoZero(t) ==> NamesHaveNoZero(u))
  {
    hide Utf8, DirectoryContents;
    var cs := DirectoryContents(t);
    DirectoryContentsSpec(t);
    var a, b := cs[0], cs[1];
    assert Less(ContentKey(a), ContentKey(b));
    assert a in cs && b in cs;
    var m := Merged(a, b);
    u := (t - {b.path})[a.path := m.bytes];
    assert b.path in t.Keys && b.path !in u.Keys;
    DirectoryContentsSpec(u);
    var ms := [m] + cs[2..];
    forall i, j | 0 <= i < j < |ms|
      ensures Less(ContentKey(ms[i]), ContentKey(ms[j]))
    {
      assert Less(ContentKey(cs[if i == 0 then 0 else i + 1]), ContentKey(cs[j + 1]));
    }
    forall c
      ensures c in ms <==> c in DirectoryContents(u)
    {
      MergedMembers(t, cs, u, c);
    }
    StrictlySortedUnique(DirectoryContents(u), ms, ContentKey);
  }

  lemma MergedMembers(t: Tree, cs: seq<Content>, u: Tree, c: Content)
    requires |cs| >= 2 && StrictlySorted(cs, ContentKey)
    requires forall x :: x in cs <==> x.path in t.Keys && t[x.path] == x.bytes
    requires u == (t - {cs[1].path})[cs[0].path := Merged(cs[0], cs[1]).bytes]
    ensures c in [Merged(cs[0], cs[1])] + cs[2..] <==> c.path in u.Keys && u[c.path] == c.bytes
  {
    hide Utf8, Leq;
    var m := Merged(cs[0], cs[1]);
    if c in cs[2..] {
      var k :| 2 <= k < |cs| && cs[k] == c;
      assert Less(ContentKey(cs[0]), ContentKey(cs[k])) && Less(ContentKey(cs[1]), ContentKey(cs[k]));
      assert c in cs;
    }
    if c.path in u.Keys && u[c.path] == c.bytes && c.path != cs[0].path {
      assert c in cs;
      var k :| 0 <= k < |cs| && cs[k] == c;
      assert c == cs[2..][k - 2];
    }
    assert Less(ContentKey(cs[0]), ContentKey(cs[1]));
  }

  /** Every directory with two files or more shares its digest with another one. */
  lemma TwoFilesCollide(t: Tree) returns (u: Tree)
    requires |DirectoryContents(t)| >= 2
    ensures u != t && DirectoryDigest(u) == DirectoryDigest(t)
    ensures NamesHaveNoZero(t) ==> NamesHaveNoZero(u)
  {
    u := MergedTree(t);
    MergedStream(DirectoryContents(t));
  }

  lemma OneFileIsAlone(t: Tree, u: Tree)
    requires NamesHaveNoZero(t) && NamesHaveNoZero(u) && ContentsHaveNoZero(t)
    requires |DirectoryContents(t)| <= 1 && DirectoryDigest(t) == DirectoryDigest(u)
    ensures t == u
  {
    hide Utf8, DirectoryContents;
    SameDigestSameStream(t, u);
    CleanContents(t);
    CleanContents(u);
    var a, b := DirectoryContents(t), DirectoryContents(u);
    StreamIsLong(a);
    StreamIsLong(b);
    if a != [] {
      StreamStep(a);
      StreamStep(b);
      assert a[1..] == [] && Stream(a[1..]) == [];
      FirstZero(Utf8(a[0].path), a[0].bytes + [0] + Stream(a[1..]), Utf8(b[0].path), b[0].bytes + [0] + Stream(b[1..]));
      Utf8Injective(a[0].path, b[0].path);
      LastZero(a[0].bytes, b[0].bytes, Stream(b[1..]));
      StreamIsLong(b[1..]);
      assert a == [a[0]] && b == [b[0]] + b[1..];
    }
    DirectoryContentsInjective(t, u);
  }

  lemma LastZero(a: Bytes, x: Bytes, y: Bytes)
    requires 0 !in a && a + [0] + [] == x + [0] + y
    ensures a == x && y == []
  {
    var whole := a + [0] + [];
    assert forall k :: 0 <= k < |a| ==> whole[k] == a[k] && a[k] in a;
    assert (x + [0] + y)[|x|] == 0;
    assert |x| == |a|;
    assert whole[..|a|] == a && (x + [0] + y)[..|x|] == x;
  }

  /**
   A directory without zero bytes is the only one with its digest exactly when it holds at most one
   file; so the digest alone identifies no skill that has anything beside its `SKILL.md`.
   */
  lemma DigestIdentifiesIff(t: Tree)
    requires NamesHaveNoZero(t) && ContentsHaveNoZero(t)
    ensures (forall u: Tree :: NamesHaveNoZero(u) && DirectoryDigest(u) == DirectoryDigest(t) ==> u == t)
      <==> |DirectoryContents(t)| <= 1
  {
    hide DirectoryContents, DirectoryDigest;
    if |DirectoryContents(t)| <= 1 {
      forall u: Tree | NamesHaveNoZero(u) && DirectoryDigest(u) == DirectoryDigest(t)
        ensures u == t
      {
        OneFileIsAlone(t, u);
      }
    } else {
      var u := TwoFilesCollide(t);
    }
  }
}
