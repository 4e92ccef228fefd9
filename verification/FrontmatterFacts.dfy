/** What the frontmatter parser guarantees: exact accounting, and block scalars that read back. */
module FrontmatterFacts {
  import opened Options
  import opened Digest
  import opened Paths
  import opened Scalars
  import opened Frontmatter

  // ---------------------------------------------------------------- counting lines once

  /** Bytes of some lines, each with its line end. */
  function Cost(lines: Lines): nat {
    if lines == [] then 0 else Cost(lines[..|lines| - 1]) + |Utf8(lines[|lines| - 1])| + 1
  }

  lemma {:induction false} CostConcat(a: Lines, b: Lines)
    ensures Cost(a + b) == Cost(a) + Cost(b)
  {
    if b == [] {
      assert a + b == a;
    } else {
      assert (a + b)[..|a + b| - 1] == a + b[..|b| - 1];
      CostConcat(a, b[..|b| - 1]);
    }
  }

  /** From line `i` to line `j` no fence was passed, and every line was charged exactly once. */
  ghost predicate Counted(lines: Lines, i: nat, a: Account, j: nat, b: Account) {
    && i <= j <= |lines|
    && FENCE !in lines[i..j]
    && b.bytes == a.bytes + Cost(lines[i..j])
    && b.lines == a.lines + (j - i)
  }

  lemma CountedNothing(lines: Lines, i: nat, a: Account)
    requires i <= |lines|
    ensures Counted(lines, i, a, i, a)
  {
    assert lines[i..i] == [];
  }

  lemma CountedOne(lines: Lines, i: nat, a: Account)
    requires i < |lines| && lines[i] != FENCE && Charge(a, lines[i], 1).Some?
    ensures Counted(lines, i, a, i + 1, Charge(a, lines[i], 1).value)
  {
    var one := lines[i..i + 1];
    assert one == [lines[i]] && one[..0] == [];
    assert Cost(one) == Cost(one[..0]) + |Utf8(lines[i])| + 1;
  }

  lemma CountedThen(lines: Lines, i: nat, a: Account, j: nat, b: Account, k: nat, c: Account)
    requires Counted(lines, i, a, j, b) && Counted(lines, j, b, k, c)
    ensures Counted(lines, i, a, k, c)
  {
    assert lines[i..k] == lines[i..j] + lines[j..k];
    CostConcat(lines[i..j], lines[j..k]);
  }

  lemma {:induction false} ScanIsCounted(lines: Lines, index: nat, base: Option<nat>, out: seq<BlockLine>, a: Account)
    requires index <= |lines| && ScanBlock(lines, index, base, out, a).Some?
    ensures
      var s := ScanBlock(lines, index, base, out, a).value;
      Counted(lines, index, a, s.next, s.account)
    decreases |lines| - index
  {
    hide Charge, Counted, Indent;
    var s := ScanBlock(lines, index, base, out, a).value;
    if s.next == index {
      if ScanBlock(lines, index, base, out, a) == Some(Scan(out, index, a)) { CountedNothing(lines, index, a); }
    }
    if index < |lines| && lines[index] != FENCE && Charge(a, lines[index], 1).Some? {
      var line, b := lines[index], Charge(a, lines[index], 1).value;
      CountedOne(lines, index, a);
      if line == "" {
        ScanIsCounted(lines, index + 1, base, out + [EMPTY_LINE], b);
        CountedThen(lines, index, a, index + 1, b, s.next, s.account);
      } else if line[0] != '\t' && Indent(line) > 0 {
        var column := if base.Some? then base.value else Indent(line);
        if Indent(line) >= column {
          ScanIsCounted(lines, index + 1, Some(column), out + [BlockLineOf(line, column)], b);
          CountedThen(lines, index, a, index + 1, b, s.next, s.account);
        }
      }
    }
  }

  lemma BlockIsCounted(lines: Lines, start: nat, raw: string, max: nat, a: Account)
    requires start < |lines| && ParseBlock(lines, start, raw, max, a).Some?
    ensures
      var b := ParseBlock(lines, start, raw, max, a).value;
      Counted(lines, start + 1, a, b.next, b.account)
  {
    hide Counted, ScanBlock;
    ScanIsCounted(lines, start + 1, ParseHeader(raw).value.indent, [], a);
  }

  lemma MapStepIsCounted(lex: Lexicon, lines: Lines, s: MapState)
    requires s.index <= |lines| && MapStep(lex, lines, s).Next?
    ensures
      var t := MapStep(lex, lines, s).state;
      Counted(lines, s.index, s.account, t.index, t.account)
  {
    hide Counted, Charge, ParseBlock, ParseScalar, AcceptKey, StripComment, Trim, Skipped, SplitOnce;
    CountedOne(lines, s.index, s.account);
    var line := lines[s.index];
    var t := MapStep(lex, lines, s).state;
    if !Skipped(line) {
      var (key, value) := SplitOnce(line[Indent(line)..], ':').value;
      var raw, b := Trim(StripComment(value)), Charge(s.account, line, 1).value;
      if StartsBlock(raw) {
        BlockIsCounted(lines, s.index, raw, MAX_METADATA_VALUE_CHARS, b);
        CountedThen(lines, s.index, s.account, s.index + 1, b, t.index, t.account);
      }
    }
  }

  lemma {:induction false} MapIsCounted(lex: Lexicon, lines: Lines, s: MapState)
    requires s.index <= |lines| && ParseMap(lex, lines, s).Some?
    ensures
      var t := ParseMap(lex, lines, s).value;
      Counted(lines, s.index, s.account, t.index, t.account)
    decreases |lines| - s.index
  {
    hide Counted, MapStep;
    match MapStep(lex, lines, s)
    case Stop => CountedNothing(lines, s.index, s.account);
    case Next(t) =>
      MapStepIsCounted(lex, lines, s);
      MapIsCounted(lex, lines, t);
      var u := ParseMap(lex, lines, t).value;
      CountedThen(lines, s.index, s.account, t.index, t.account, u.index, u.account);
  }

  lemma FieldStepIsCounted(lex: Lexicon, lines: Lines, s: FieldState)
    requires s.index <= |lines| && FieldStep(lex, lines, s).Next?
    ensures
      var t := FieldStep(lex, lines, s).state;
      Counted(lines, s.index, s.account, t.index, t.account)
  {
    hide Counted, Charge, ParseBlock, ParseScalar, AcceptKey, StripComment, Trim, Skipped, SplitOnce, ParseMap;
    CountedOne(lines, s.index, s.account);
    var line := lines[s.index];
    var t := FieldStep(lex, lines, s).state;
    if !Skipped(line) {
      var (key, value) := SplitOnce(line, ':').value;
      var raw, b := Trim(StripComment(value)), Charge(s.account, line, 1).value;
      if AsciiLower(key) == "metadata" && raw == "" {
        MapIsCounted(lex, lines, MapState(s.index + 1, None, {}, 0, b));
        CountedThen(lines, s.index, s.account, s.index + 1, b, t.index, t.account);
      } else if StartsBlock(raw) {
        BlockIsCounted(lines, s.index, raw, MAX_FRONTMATTER_VALUE_CHARS, b);
        CountedThen(lines, s.index, s.account, s.index + 1, b, t.index, t.account);
      }
    }
  }

  lemma {:induction false} FieldsAreCounted(lex: Lexicon, lines: Lines, s: FieldState)
    requires s.index <= |lines| && ParseFields(lex, lines, s).Some?
    ensures
      var t := ParseFields(lex, lines, s).value;
      Counted(lines, s.index, s.account, t.index, t.account)
    decreases |lines| - s.index
  {
    hide Counted, FieldStep;
    match FieldStep(lex, lines, s)
    case Stop => CountedNothing(lines, s.index, s.account);
    case Next(t) =>
      FieldStepIsCounted(lex, lines, s);
      FieldsAreCounted(lex, lines, t);
      var u := ParseFields(lex, lines, t).value;
      CountedThen(lines, s.index, s.account, t.index, t.account, u.index, u.account);
  }

  // ---------------------------------------------------------------- bytes of the text

  lemma {:induction false} Utf8Concat(a: string, b: string)
    ensures Utf8(a + b) == Utf8(a) + Utf8(b)
  {
    hide Utf8Char;
    if a == "" {
      assert a + b == b;
    } else {
      assert (a + b)[1..] == a[1..] + b;
      Utf8Concat(a[1..], b);
    }
  }

  lemma {:induction false} JoinedBytes(lines: Lines)
    requires lines != []
    ensures |Utf8(Join(lines, '\n'))| + 1 == Cost(lines)
  {
    var first, rest := [lines[0]], lines[1..];
    assert lines == first + rest;
    CostConcat(first, rest);
    assert first[..0] == [] && Cost(first[..0]) == 0;
    assert Cost(first) == |Utf8(lines[0])| + 1;
    if rest == [] {
      assert Cost(rest) == 0;
    } else {
      JoinedBytes(rest);
      var newline := ['\n'];
      assert newline[1..] == "" && Utf8(newline) == Utf8Char('\n') + Utf8("");
      Utf8Concat(lines[0] + newline, Join(rest, '\n'));
      Utf8Concat(lines[0], newline);
    }
  }

  lemma {:induction false} JoinSplit(s: string, sep: char)
    ensures Join(Split(s, sep), sep) == s
  {
    if s != "" {
      var rest := Split(s[1..], sep);
      JoinSplit(s[1..], sep);
      assert s == [s[0]] + s[1..];
      if s[0] == sep {
        JoinBlank(rest, sep);
      } else {
        JoinLonger(s[0], rest, sep);
      }
    }
  }

  lemma JoinBlank(rest: Lines, sep: char)
    requires rest != []
    ensures Join([""] + rest, sep) == [sep] + Join(rest, sep)
  {
    assert ([""] + rest)[1..] == rest;
  }

  lemma JoinLonger(c: char, rest: Lines, sep: char)
    requires rest != []
    ensures Join([[c] + rest[0]] + rest[1..], sep) == [c] + Join(rest, sep)
  {
    var all := [[c] + rest[0]] + rest[1..];
    assert all[1..] == rest[1..];
    if |rest| > 1 {
      assert Join(all, sep) == ([c] + rest[0]) + [sep] + Join(rest[1..], sep);
    }
  }

  lemma {:induction false} JoinPrefix(lines: Lines, n: nat, sep: char)
    requires 0 < n <= |lines|
    ensures Join(lines[..n], sep) <= Join(lines, sep)
  {
    if n == 1 {
      assert lines[..1] == [lines[0]];
    } else {
      assert lines[..n][1..] == lines[1..][..n - 1];
      JoinPrefix(lines[1..], n - 1, sep);
    }
  }

  /** The text from the opening to the closing fence. */
  function FrontmatterText(lines: Lines, close: nat): string
    requires close < |lines|
  {
    Join(lines[..close + 1], '\n')
  }

  /**
   On acceptance the frontmatter ends at the first closing fence, and the two counters are exactly
   its number of lines and its length in bytes, both within their limits.
   */
  ghost predicate ExactlyCounted(markdown: string, d: Document) {
    var lines := Split(Normalized(markdown), '\n');
    && 0 < d.close < |lines|
    && lines[0] == FENCE && lines[d.close] == FENCE
    && FENCE !in lines[1..d.close]
    && FrontmatterText(lines, d.close) <= Normalized(markdown)
    && d.account.lines == d.close + 1 <= MAX_FRONTMATTER_LINES
    && d.account.bytes == |Utf8(FrontmatterText(lines, d.close))| <= MAX_FRONTMATTER_BYTES
  }

  lemma AcceptedIsExactlyCounted(lex: Lexicon, markdown: string)
    requires Parse(lex, markdown).Some?
    ensures ExactlyCounted(markdown, Parse(lex, markdown).value)
  {
    hide ParseFields, Counted, Normalized, Split, Utf8, ValidName, ValidDescription, Join;
    var lines := Split(Normalized(markdown), '\n');
    var d := Parse(lex, markdown).value;
    var zero := Account(0, 0);
    var one := Charge(zero, FENCE, 1).value;
    var s := FieldState(1, {}, None, None, one);
    FieldsAreCounted(lex, lines, s);
    var t := ParseFields(lex, lines, s).value;
    CountsWholeText(lines, one, d.close, t.account);
    JoinPrefix(lines, d.close + 1, '\n');
    JoinSplit(Normalized(markdown), '\n');
  }

  lemma CountsWholeText(lines: Lines, one: Account, close: nat, last: Account)
    requires 0 < close < |lines| && lines[0] == FENCE && lines[close] == FENCE
    requires Counted(lines, 1, one, close, last)
    requires one == Account(|Utf8(FENCE)| + 1, 1)
    ensures last.lines == close && FENCE !in lines[1..close]
    ensures last.bytes + |Utf8(FENCE)| == |Utf8(FrontmatterText(lines, close))|
  {
    var opening, inner, closing := [lines[0]], lines[1..close], [lines[close]];
    assert lines[..close + 1] == opening + inner + closing;
    CostConcat(opening + inner, closing);
    CostConcat(opening, inner);
    CostOfFence(lines[0]);
    JoinedBytes(lines[..close + 1]);
  }

  lemma CostOfFence(line: string)
    ensures Cost([line]) == |Utf8(line)| + 1
  {
    assert [line][..0] == [];
    assert Cost([line][..0]) == 0;
  }

  /** `validate_skill_markdown`. */
  method ValidateSkillMarkdown(lex: Lexicon, markdown: string) returns (r: Option<Document>)
    ensures r == Parse(lex, markdown)
    ensures r.Some? ==> ExactlyCounted(markdown, r.value)
  {
    if Parse(lex, markdown).Some? { AcceptedIsExactlyCounted(lex, markdown); }
    var lines := Split(Normalized(markdown), '\n');
    if StartsWithAny(markdown, [0xFEFF as char]) || lines[0] != FENCE { return None; }
    var started := Charge(Account(0, 0), lines[0], 1);
    if started.None? { return None; }
    var fields := ReadFields(lex, lines, FieldState(1, {}, None, None, started.value));
    if fields.None? { return None; }
    var closed := Charge(fields.value.account, lines[fields.value.index], 0);
    if closed.None? { return None; }
    var name, description := fields.value.name, fields.value.description;
    if name.None? || !ValidName(name.value) || description.None? || !ValidDescription(description.value) { return None; }
    return Some(Document(name.value, description.value, fields.value.index, closed.value));
  }

  // ---------------------------------------------------------------- literal blocks read back

  function Spaces(n: nat): (s: string)
    ensures |s| == n && forall i :: 0 <= i < n ==> s[i] == ' '
  {
    seq(n, i => ' ')
  }

  lemma {:induction false} IndentOfSpaces(n: nat, text: string)
    ensures Indent(Spaces(n) + text) >= n
  {
    if n > 0 {
      assert (Spaces(n) + text)[1..] == Spaces(n - 1) + text;
      IndentOfSpaces(n - 1, text);
    }
  }

  /** The lines of a literal block with indentation `n`. */
  function Indented(ls: Lines, n: nat): (r: Lines)
    ensures |r| == |ls|
  {
    seq(|ls|, i requires 0 <= i < |ls| => Spaces(n) + ls[i])
  }

  function EachEnded(ls: Lines): string {
    if ls == [] then "" else EachEnded(ls[..|ls| - 1]) + ls[|ls| - 1] + "\n"
  }

  /** A line at which a block of any indentation ends. */
  predicate EndsBlock(rest: Lines) {
    rest == [] || rest[0] == FENCE || (rest[0] != "" && rest[0][0] != '\t' && rest[0][0] != ' ')
  }

  /** The lines written so far are read as written, whatever stands around them. */
  ghost predicate ReadAs(out: seq<BlockLine>, ls: Lines) {
    |out| == |ls| && forall i :: 0 <= i < |ls| ==> out[i].value == ls[i]
  }

  function Plus(a: Account, lines: Lines): Account {
    Account(a.bytes + Cost(lines), a.lines + |lines|)
  }

  lemma CostGrows(a: Account, body: Lines, i: nat)
    requires i < |body|
    ensures Plus(a, body[..i + 1]) ==
      Account(Plus(a, body[..i]).bytes + |Utf8(body[i])| + 1, Plus(a, body[..i]).lines + 1)
    ensures Cost(body[..i + 1]) <= Cost(body)
  {
    assert body[..i + 1][..i] == body[..i];
    CostConcat(body[..i + 1], body[i + 1..]);
    assert body == body[..i + 1] + body[i + 1..];
  }

  /** Reading the written lines goes through exactly when they fit the limits. */
  lemma {:induction false} ScanWritten(
      pre: Lines, ls: Lines, n: nat, rest: Lines, i: nat, out: seq<BlockLine>, a: Account)
    requires 1 <= n && i <= |ls| && EndsBlock(rest) && ReadAs(out, ls[..i])
    ensures
      var body := Indented(ls, n);
      var lines := pre + body + rest;
      var r := ScanBlock(lines, |pre| + i, Some(n), out, Plus(a, body[..i]));
      && (r.Some? <==> i == |ls| || WithinLimits(Plus(a, body)))
      && (r.Some? ==> ReadAs(r.value.out, ls) && r.value.next == |pre| + |ls| && r.value.account == Plus(a, body))
    decreases |ls| - i
  {
    hide Utf8, Cost, Trim;
    var body := Indented(ls, n);
    var lines := pre + body + rest;
    var at := Plus(a, body[..i]);
    if i == |ls| {
      assert body[..i] == body && ls[..i] == ls;
      if rest != [] {
        assert lines[|pre| + i] == rest[0];
      }
    } else {
      var line := body[i];
      assert lines[|pre| + i] == line && line == Spaces(n) + ls[i] && line[0] == ' ';
      IndentOfSpaces(n, ls[i]);
      CostGrows(a, body, i);
      assert line[n..] == ls[i];
      var next := out + [BlockLineOf(line, n)];
      assert ReadAs(next, ls[..i + 1]);
      ScanWritten(pre, ls, n, rest, i + 1, next, a);
      if i + 1 == |ls| { assert body[..i + 1] == body; }
    }
  }

  lemma {:induction false} LiteralValue(out: seq<BlockLine>, ls: Lines)
    requires ReadAs(out, ls)
    ensures Assembled(false, out) + (if out == [] then "" else "\n") == EachEnded(ls)
  {
    if ls != [] {
      var k := |ls| - 1;
      LiteralValue(out[..k], ls[..k]);
      if k == 0 {
        assert Assembled(false, out[..k]) == "" && EachEnded(ls[..k]) == "";
      } else {
        assert Glue(false, out[k - 1], out[k]) == "\n";
      }
    }
  }

  function LiteralHeader(n: nat): string
    requires 1 <= n <= 9
  {
    ['|', (n + 48) as char, '+']
  }

  lemma HeaderReads(n: nat)
    requires 1 <= n <= 9
    ensures ParseHeader(LiteralHeader(n)) == Some(Header(false, Keep, Some(n)))
  {
    var s := LiteralHeader(n);
    var rest := s[1..];
    assert rest[0] == s[1] && rest[1..] == s[2..];
    var h := Header(false, Clip, Some(n));
    assert Indicators(rest, h.(indent := None)) == Indicators(s[2..], h);
    assert s[2..][0] == '+' && s[2..][1..] == "";
    assert Indicators(s[2..], h) == Indicators("", h.(chomp := Keep));
  }

  /**
   Any lines, written as a literal block with an explicit indentation and the keep indicator, read
   back as themselves, each ended by a newline. The only reasons to refuse are the limits.
   */
  lemma LiteralBlockReadsBack(pre: Lines, opening: string, ls: Lines, n: nat, rest: Lines, max: nat, a: Account)
    requires 1 <= n <= 9 && EndsBlock(rest)
    ensures
      var body := Indented(ls, n);
      var lines := pre + [opening] + body + rest;
      var value := EachEnded(ls);
      ParseBlock(lines, |pre|, LiteralHeader(n), max, a) ==
        if (ls == [] || WithinLimits(Plus(a, body))) && |value| <= max
        then Some(Block(value, |pre| + 1 + |ls|, Plus(a, body)))
        else None
  {
    hide Utf8, Cost, Trim, ScanBlock, Assembled, WithinLimits;
    var body := Indented(ls, n);
    var head := pre + [opening];
    HeaderReads(n);
    NothingAdded(a, body);
    ScanWritten(head, ls, n, rest, 0, [], a);
    var r := ScanBlock(head + body + rest, |head|, Some(n), [], a);
    if r.Some? {
      LiteralValue(r.value.out, ls);
    }
  }

  lemma NothingAdded(a: Account, body: Lines)
    ensures Plus(a, body[..0]) == a
  {
  }
}
