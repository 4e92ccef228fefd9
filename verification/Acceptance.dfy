/** Acceptance of a whole bundle: the structural checks and the frontmatter of its `SKILL.md`. */
module Acceptance {
  import opened Options
  import opened Digest
  import opened Paths
  import opened SkillTree
  import opened BundleFormat
  import Scalars
  import Frontmatter
  import FrontmatterFacts
  import Documents

  type Lexicon = Scalars.Lexicon

  const SKILL_FILE := "SKILL.md"

  /** The file is UTF-8 text that the frontmatter parser accepts. */
  ghost predicate ReadsAsSkill(lex: Lexicon, content: Bytes) {
    exists text :: Utf8(text) == content && Frontmatter.Parse(lex, text).Some?
  }

  ghost predicate SkillReads(lex: Lexicon, b: Bundle) {
    exists f :: f in b && f.path == SKILL_FILE && ReadsAsSkill(lex, f.content)
  }

  /** Exactly the bundles that `validate_bundle` accepts. */
  ghost predicate FullyAccepted(lex: Lexicon, b: Bundle) {
    Accepted(b) && SkillReads(lex, b)
  }

  /** `str::from_utf8`: the text of a byte string, when it is the encoding of one. */
  ghost predicate DecodesUtf8(decode: Bytes -> Option<string>) {
    && (forall text :: decode(Utf8(text)) == Some(text))
    && (forall content :: decode(content).Some? ==> Utf8(decode(content).value) == content)
  }

  datatype Verdict = Passed(total: nat) | Structure(error: BundleError) | NotUtf8 | BadFrontmatter

  /** `validate_bundle` to its end: the file loop, then the skill file it came across. */
  method ValidateSkillBundle(lex: Lexicon, decode: Bytes -> Option<string>, b: Bundle) returns (r: Verdict)
    requires DecodesUtf8(decode)
    ensures r.Passed? <==> FullyAccepted(lex, b)
    ensures r.Passed? <==> Admitted(b) && SkillReads(lex, b)
    ensures r.Structure? ==> Reason(b, r.error)
    ensures r.Passed? ==> r.total == TotalBytes(b)
  {
    hide Accepted, Frontmatter.Parse, Utf8, FrontmatterFacts.ExactlyCounted, Admitted, Reason;
    AdmittedIff(b);
    var structure := ValidateBundle(b);
    if structure.Invalid? {
      return Structure(structure.error);
    }
    var i := FindSkillFile(b);
    var text := decode(b[i].content);
    SkillReadsIff(lex, b, i);
    if text.None? {
      NotTextReadsNothing(lex, decode, b[i].content);
      return NotUtf8;
    }
    var document := FrontmatterFacts.ValidateSkillMarkdown(lex, text.value);
    TextReadsIff(lex, decode, b[i].content, text.value);
    return if document.Some? then Passed(structure.total) else BadFrontmatter;
  }

  method FindSkillFile(b: Bundle) returns (i: nat)
    requires Accepted(b)
    ensures i < |b| && b[i].path == SKILL_FILE
  {
    hide ValidPath;
    i := 0;
    for n := 0 to |b|
      invariant i < |b|
      invariant (exists k :: 0 <= k < n && b[k].path == SKILL_FILE) ==> b[i].path == SKILL_FILE
    {
      if b[n].path == SKILL_FILE {
        i := n;
      }
    }
    var f :| f in b && f.path == SKILL_FILE;
    var k :| 0 <= k < |b| && b[k] == f;
  }

  lemma SamePathSameIndex(b: Bundle, i: nat, k: nat)
    requires DistinctPaths(b) && i < |b| && k < |b| && b[i].path == b[k].path
    ensures i == k
  {
  }

  /** Paths are distinct, so the skill file is one. */
  lemma SkillReadsIff(lex: Lexicon, b: Bundle, i: nat)
    requires Accepted(b) && i < |b| && b[i].path == SKILL_FILE
    ensures SkillReads(lex, b) <==> ReadsAsSkill(lex, b[i].content)
  {
    hide ReadsAsSkill, ValidPath;
    assert b[i] in b;
    assert DistinctPaths(b);
    forall f | f in b && f.path == SKILL_FILE
      ensures f == b[i]
    {
      var k :| 0 <= k < |b| && b[k] == f;
      SamePathSameIndex(b, i, k);
    }
  }

  lemma NotTextReadsNothing(lex: Lexicon, decode: Bytes -> Option<string>, content: Bytes)
    requires DecodesUtf8(decode) && decode(content).None?
    ensures !ReadsAsSkill(lex, content)
  {
    hide Frontmatter.Parse, Utf8;
    assert forall text :: Utf8(text) == content ==> decode(Utf8(text)) == Some(text);
  }

  lemma TextReadsIff(lex: Lexicon, decode: Bytes -> Option<string>, content: Bytes, text: string)
    requires DecodesUtf8(decode) && decode(content) == Some(text)
    ensures ReadsAsSkill(lex, content) <==> Frontmatter.Parse(lex, text).Some?
  {
    hide Frontmatter.Parse, Utf8;
    forall other | Utf8(other) == content
      ensures other == text
    {
      Utf8Injective(other, text);
    }
    assert Utf8(text) == content;
  }

  /** Acceptance to the end does not depend on the order of the files either. */
  lemma FullAcceptanceIgnoresOrder(lex: Lexicon, b: Bundle, c: Bundle)
    requires multiset(b) == multiset(c)
    ensures FullyAccepted(lex, b) <==> FullyAccepted(lex, c)
  {
    hide Accepted, ReadsAsSkill;
    SameMembers(b, c);
    if Accepted(b) { AcceptanceIgnoresOrder(b, c); }
    if Accepted(c) { AcceptanceIgnoresOrder(c, b); }
  }

  // ---------------------------------------------------------------- bundles that are accepted

  /** A skill file that every lexicon with ordinary field names accepts. */
  function PlainSkill(name: string, description: string): BundleFile {
    BundleFile(SKILL_FILE, Utf8(Documents.Written(name, description, "")), None)
  }

  /** A few small files beside a skill file. */
  ghost predicate SmallExtras(extra: Bundle) {
    && |extra| < 10
    && (forall f :: f in extra ==> ValidPath(f.path) && |f.content| <= 10 && AsciiLower(f.path) != "skill.md")
    && DistinctPaths(extra) && NoCollision(extra)
  }

  predicate NameLetter(c: char) {
    'a' <= c <= 'z' || 'A' <= c <= 'Z' || c == '.'
  }

  /** A name of letters with an ordinary stem is a valid component. */
  lemma LetterNameIsComponent(name: string)
    requires 0 < |name| <= 60 && forall c :: c in name ==> NameLetter(c)
    requires name[|name| - 1] != '.' && FreeStem(name)
    ensures ValidComponent(name)
  {
    hide FreeStem, Utf8;
    Documents.ByteBound(name);
    assert name[|name| - 1] in name;
    assert forall c :: NameLetter(c) ==> c !in RESERVED_CHARACTERS;
  }

  /** Such a name by itself is a valid path. */
  lemma LetterNameIsPath(name: string)
    requires 0 < |name| <= 60 && forall c :: c in name ==> NameLetter(c)
    requires name[0] != '.' && name[|name| - 1] != '.' && FreeStem(name)
    ensures ValidPath(name)
  {
    hide AgentReserved, FreeStem, Utf8, ValidComponent;
    SplitFree(name, '/');
    WithoutDotsSpec([name]);
    assert WithoutDots([name]) == [name];
    Utf16Bound(name);
    assert name[|name| - 1] in name && (|name| > 1 ==> name[1] in name);
    LetterNameIsComponent(name);
    NotAgentName(name);
  }

  /** Reserved agent names start with a dot. */
  lemma NotAgentName(name: string)
    requires name != "" && name[0] != '.'
    ensures !AgentReserved(name)
  {
    assert AsciiLower(name)[0] == Lower(name[0]) != '.';
  }

  /** Reserved stems have three or four characters. */
  lemma LongStemIsFree(name: string)
    requires |Split(name, '.')[0]| >= 5 || |Split(name, '.')[0]| < 3
    ensures FreeStem(name)
  {
    assert |AsciiLower(Split(name, '.')[0])| == |Split(name, '.')[0]|;
  }

  lemma SkillPathIsValid()
    ensures ValidPath(SKILL_FILE)
  {
    hide ValidPath, FreeStem;
    SplitPrefix("SKILL", "md", '.');
    SkillStem();
    LongStemIsFree(SKILL_FILE);
    LetterNameIsPath(SKILL_FILE);
  }

  lemma SkillStem()
    ensures SKILL_FILE == "SKILL" + ['.'] + "md" && |"SKILL"| == 5
    ensures forall c :: c in SKILL_FILE ==> NameLetter(c)
  {
  }

  lemma SkillPathLowered()
    ensures AsciiLower(SKILL_FILE) == "skill.md"
  {
    var low, text := AsciiLower(SKILL_FILE), "skill.md";
    assert |low| == |text| && forall i :: 0 <= i < |text| ==> low[i] == text[i];
  }

  lemma PlainSkillReads(lex: Lexicon, name: string, description: string)
    requires Frontmatter.ValidName(name) && Frontmatter.ValidDescription(description) && Documents.Printable(description)
    requires !lex.dangerous("name") && !lex.dangerous("description")
    ensures ReadsAsSkill(lex, PlainSkill(name, description).content)
    ensures |PlainSkill(name, description).content| <= 20_000
  {
    hide Frontmatter.Parse, Utf8, Documents.Written;
    Documents.WrittenReadsBack(lex, name, description, "");
    Documents.NameIsPrintable(name);
    Documents.DescriptionIsShort(description);
    WrittenIsShort(name, description);
    Documents.ByteBound(Documents.Written(name, description, ""));
  }

  lemma WrittenIsShort(name: string, description: string)
    requires |name| <= 64 && |description| <= 1024
    ensures |Documents.Written(name, description, "")| <= 5_000
  {
    Documents.DoubledChars(name);
    Documents.DoubledChars(description);
  }

  lemma {:induction false} SmallTotal(b: Bundle)
    requires forall f :: f in b ==> |f.content| <= 10
    ensures TotalBytes(b) <= 10 * |b|
  {
    if b != [] {
      assert b[0] in b && forall f :: f in b[1..] ==> f in b;
      SmallTotal(b[1..]);
    }
  }

  /** A skill file and a few small files with valid, distinct paths make an accepted bundle. */
  lemma SmallBundleIsAccepted(lex: Lexicon, name: string, description: string, extra: Bundle)
    requires Frontmatter.ValidName(name) && Frontmatter.ValidDescription(description) && Documents.Printable(description)
    requires !lex.dangerous("name") && !lex.dangerous("description")
    requires SmallExtras(extra)
    ensures FullyAccepted(lex, [PlainSkill(name, description)] + extra)
  {
    hide ValidPath, ReadsAsSkill, PlainSkill, AsciiLower, SkillReads;
    var skill := PlainSkill(name, description);
    var b := [skill] + extra;
    assert skill.path == SKILL_FILE by { SkillPath(name, description); }
    SkillPathIsValid();
    SkillPathLowered();
    PlainSkillReads(lex, name, description);
    SmallTotal(extra);
    assert b[1..] == extra;
    forall i, j | 0 <= i < j < |b|
      ensures b[i].path != b[j].path && AsciiLower(b[i].path) != AsciiLower(b[j].path)
    {
      assert b[j] == extra[j - 1] && b[j] in extra;
      if i > 0 { assert b[i] == extra[i - 1]; }
    }
    assert skill in b;
    HasOneSkill(lex, b, skill);
  }

  lemma SkillPath(name: string, description: string)
    ensures PlainSkill(name, description).path == SKILL_FILE
  {
  }

  lemma HasOneSkill(lex: Lexicon, b: Bundle, f: BundleFile)
    requires f in b && f.path == SKILL_FILE && ReadsAsSkill(lex, f.content)
    ensures SkillReads(lex, b)
  {
    hide ReadsAsSkill;
  }
}
