/** Documents that are accepted: a name and a description, written in single quotes, read back. */
module Documents {
  import opened Options
  import opened Digest
  import opened Paths
  import opened Scalars
  import opened Frontmatter
  import opened FrontmatterFacts

  /** A field line with a single-quoted value. */
  function FieldLine(key: string, value: string): string {
    key + ": " + SingleQuoted(value)
  }

  /** A `SKILL.md` with the two required fields and any text below. */
  function Written(name: string, description: string, body: string): string {
    FENCE + "\n" + FieldLine("name", name) + "\n" + FieldLine("description", description) + "\n" + FENCE + "\n" + body
  }

  predicate Printable(s: string) {
    forall c :: c in s ==> !IsControl(c)
  }

  // ---------------------------------------------------------------- lines of the text

  lemma {:induction false} NormalizedPrefix(a: string, b: string)
    requires '\r' !in a
    ensures Normalized(a + b) == a + Normalized(b)
  {
    if a == "" {
      assert a + b == b;
    } else {
      assert (a + b)[0] == a[0] && (a + b)[1..] == a[1..] + b;
      NormalizedPrefix(a[1..], b);
      assert a == [a[0]] + a[1..];
    }
  }

  lemma {:induction false} DoubledChars(s: string)
    ensures forall c :: c in Doubled(s) ==> c in s || c == '\''
    ensures |Doubled(s)| <= 2 * |s|
  {
    if s != "" { DoubledChars(s[1..]); }
  }

  lemma FieldLineChars(key: string, value: string)
    requires Printable(key) && Printable(value)
    ensures Printable(FieldLine(key, value)) && '\n' !in FieldLine(key, value) && '\r' !in FieldLine(key, value)
    ensures |FieldLine(key, value)| <= |key| + 4 + 2 * |value|
  {
    DoubledChars(value);
    assert IsControl('\n') && IsControl('\r');
    assert !IsControl(':') && !IsControl(' ') && !IsControl('\'');
  }

  lemma KeysArePrintable()
    ensures Printable("name") && Printable("description")
    ensures '\n' !in FENCE && '\r' !in FENCE
  {
  }

  function LinesOf(name: string, description: string, rest: Lines): Lines {
    [FENCE, FieldLine("name", name), FieldLine("description", description), FENCE] + rest
  }

  lemma WrittenLines(name: string, description: string, body: string)
    requires Printable(name) && Printable(description)
    ensures Split(Normalized(Written(name, description, body)), '\n') ==
      LinesOf(name, description, Split(Normalized(body), '\n'))
  {
    hide Printable, FieldLine, Split, Normalized;
    KeysArePrintable();
    FieldLineChars("name", name);
    FieldLineChars("description", description);
    var n, d, b := FieldLine("name", name), FieldLine("description", description), Normalized(body);
    var head := FENCE + "\n" + n + "\n" + d + "\n" + FENCE + "\n";
    assert Written(name, description, body) == head + body;
    NormalizedPrefix(head, body);
    HeadLines(n, d, b);
  }

  lemma HeadLines(n: string, d: string, b: string)
    requires '\n' !in n && '\n' !in d
    ensures Split(FENCE + "\n" + n + "\n" + d + "\n" + FENCE + "\n" + b, '\n') == [FENCE, n, d, FENCE] + Split(b, '\n')
  {
    hide Split;
    var r3 := FENCE + ['\n'] + b;
    var r2 := d + ['\n'] + r3;
    var r1 := n + ['\n'] + r2;
    assert FENCE + "\n" + n + "\n" + d + "\n" + FENCE + "\n" + b == FENCE + ['\n'] + r1;
    KeysArePrintable();
    SplitPrefix(FENCE, b, '\n');
    SplitPrefix(d, r3, '\n');
    SplitPrefix(n, r2, '\n');
    SplitPrefix(FENCE, r1, '\n');
  }

  // ---------------------------------------------------------------- one field

  lemma {:induction false} SplitKey(key: string, value: string)
    requires ':' !in key
    ensures SplitOnce(key + ":" + value, ':') == Some((key, value))
  {
    var s := key + ":" + value;
    if key == "" {
      assert s[1..] == value;
    } else {
      assert s[1..] == key[1..] + ":" + value;
      SplitKey(key[1..], value);
      assert key == [key[0]] + key[1..];
    }
  }

  lemma {:induction false} ByteBound(s: string)
    ensures |Utf8(s)| <= 4 * |s|
  {
    if s != "" { ByteBound(s[1..]); }
  }

  predicate Letters(s: string) {
    s != "" && forall i :: 0 <= i < |s| ==> 'a' <= s[i] <= 'z'
  }

  lemma {:induction false} FoldedLetters(s: string)
    requires forall i :: 0 <= i < |s| ==> 'a' <= s[i] <= 'z'
    ensures AsciiLower(s) == s && WithoutDashes(s) == s
  {
    if s != "" { FoldedLetters(s[1..]); }
  }

  lemma LetterLineIsField(key: string, value: string)
    requires Letters(key)
    ensures FieldLine(key, value) != FENCE && !Skipped(FieldLine(key, value))
  {
    var line := FieldLine(key, value);
    assert line[0] == key[0] && !IsWhitespace(line[0]);
    assert TrimStart(line) == line;
    assert line[|line| - 1] == '\'' && !IsWhitespace('\'');
    assert Trim(line) == line;
  }

  lemma QuotedRaw(value: string)
    ensures Trim(StripComment(" " + SingleQuoted(value))) == SingleQuoted(value)
  {
    var q := SingleQuoted(value);
    assert Blank(" ");
    StripQuoted(" ", value, "", "");
    assert " " + q + "" + "" == " " + q && " " + q + "" == " " + q;
    QuoteIsNotBlank();
    TrimAround(" ", q, "");
  }

  lemma QuotedScalar(lex: Lexicon, value: string)
    requires Printable(value) && |value| <= MAX_FRONTMATTER_VALUE_CHARS
    ensures ParseScalar(lex, " " + SingleQuoted(value)) == Some(Text(value))
  {
    hide ParseScalar;
    SingleQuotedReadsBack(lex, " ", value, "", "");
    assert " " + SingleQuoted(value) + "" + "" == " " + SingleQuoted(value);
  }

  lemma LettersAccepted(lex: Lexicon, key: string, seen: set<string>)
    requires Letters(key) && |key| <= 64 && !lex.dangerous(key) && key !in seen && key != "constructor" && |seen| < 10
    ensures AcceptKey(lex, key, seen) == Some(seen + {key})
  {
    FoldedLetters(key);
    assert key != "__proto__" by { assert "__proto__"[0] == '_'; }
    assert |seen + {key}| <= |seen| + 1;
  }

  /** A quoted field line is taken as its key and its text. */
  lemma QuotedField(lex: Lexicon, lines: Lines, s: FieldState, key: string, value: string)
    requires s.index < |lines| && lines[s.index] == FieldLine(key, value)
    requires Letters(key) && |key| <= 64 && key != "metadata" && key != "constructor"
    requires !lex.dangerous(key) && key !in s.seen && |s.seen| < 10
    requires Printable(value) && |value| <= MAX_FRONTMATTER_VALUE_CHARS
    requires Charge(s.account, lines[s.index], 1).Some?
    ensures
      var t := s.(index := s.index + 1, seen := s.seen + {key}, account := Charge(s.account, lines[s.index], 1).value);
      FieldStep(lex, lines, s) == Next(Assign(t, key, Text(value)))
  {
    hide Skipped, ParseScalar, StripComment, Trim, AcceptKey, Charge, SplitOnce, ParseMap, ParseBlock, Printable;
    var line := lines[s.index];
    LetterLineIsField(key, value);
    assert ':' !in key;
    assert line == key + ":" + (" " + SingleQuoted(value));
    SplitKey(key, " " + SingleQuoted(value));
    LettersAccepted(lex, key, s.seen);
    QuotedRaw(value);
    QuotedScalar(lex, value);
    FoldedLetters(key);
    assert SingleQuoted(value)[0] == '\'' && SingleQuoted(value) != "";
    assert !StartsBlock(SingleQuoted(value));
  }

  // ---------------------------------------------------------------- the whole document

  function FirstAccount(): Account { Account(|Utf8(FENCE)| + 1, 1) }

  lemma FenceBytes()
    ensures |Utf8(FENCE)| == 3
  {
    assert FENCE[1..][1..][1..] == "";
  }

  /**
   Any valid name and description, single-quoted, make an accepted document, whatever follows; both
   are read back exactly.
   */
  lemma WrittenReadsBack(lex: Lexicon, name: string, description: string, body: string)
    requires ValidName(name) && ValidDescription(description) && Printable(description)
    requires !lex.dangerous("name") && !lex.dangerous("description")
    ensures
      var r := Parse(lex, Written(name, description, body));
      r.Some? && r.value.name == name && r.value.description == description && r.value.close == 3
  {
    hide FieldStep, Split, Normalized, Utf8, ValidName, ValidDescription, AcceptKey, FieldLine, Printable, LinesOf;
    NameIsPrintable(name);
    DescriptionIsShort(description);
    WrittenLines(name, description, body);
    StartsWithFence(name, description, body);
    var lines := Split(Normalized(Written(name, description, body)), '\n');
    LinesAre(name, description, Split(Normalized(body), '\n'));
    FenceBytes();
    KeyIsLetters();
    LineIsShort("name", name);
    LineIsShort("description", description);
    var s0 := FieldState(1, {}, None, None, FirstAccount());
    QuotedField(lex, lines, s0, "name", name);
    var s1 := FieldStep(lex, lines, s0).state;
    assert "description" !in s1.seen by { assert |"description"| != |"name"|; }
    QuotedField(lex, lines, s1, "description", description);
    var s2 := FieldStep(lex, lines, s1).state;
    FenceStops(lex, lines, s2);
    assert ParseFields(lex, lines, s2) == Some(s2);
    assert ParseFields(lex, lines, s1) == Some(s2);
    assert ParseFields(lex, lines, s0) == Some(s2);
  }

  lemma LinesAre(name: string, description: string, rest: Lines)
    ensures
      var lines := LinesOf(name, description, rest);
      && |lines| >= 4 && lines[0] == FENCE && lines[3] == FENCE
      && lines[1] == FieldLine("name", name) && lines[2] == FieldLine("description", description)
  {
  }

  lemma FenceStops(lex: Lexicon, lines: Lines, s: FieldState)
    requires s.index < |lines| && lines[s.index] == FENCE
    ensures FieldStep(lex, lines, s) == Stop
  {
  }

  lemma NameIsPrintable(name: string)
    requires ValidName(name)
    ensures Printable(name) && |name| <= 64
  {
    forall c | c in name
      ensures !IsControl(c)
    {
      var i :| 0 <= i < |name| && name[i] == c;
      assert NameChar(name[i]);
    }
  }

  lemma DescriptionIsShort(d: string)
    requires ValidDescription(d)
    ensures |d| <= 1024
  {
  }

  lemma StartsWithFence(name: string, description: string, body: string)
    ensures !StartsWithAny(Written(name, description, body), [0xFEFF as char])
  {
    var w := Written(name, description, body);
    assert w[0] == FENCE[0];
  }

  lemma LineIsShort(key: string, value: string)
    requires |key| <= 64 && Printable(key) && Printable(value) && |value| <= 1024
    ensures |Utf8(FieldLine(key, value))| <= 10_000
  {
    FieldLineChars(key, value);
    ByteBound(FieldLine(key, value));
  }

  lemma KeyIsLetters()
    ensures Letters("name") && Letters("description") && Printable("name") && Printable("description")
    ensures "name" != "metadata" && "description" != "metadata" && "name" != "constructor" && "description" != "constructor"
  {
    assert |"name"| == 4 && |"metadata"| == 8;
    assert "description"[0] == 'd' && "metadata"[0] == 'm' && "constructor"[0] == 'c';
  }
}
