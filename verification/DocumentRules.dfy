/** What every accepted `SKILL.md` looks like: its fields, said of the lines between the fences. */
module DocumentRules {
  import opened Options
  import opened Digest
  import opened Paths
  import opened PathRules
  import opened Scalars
  import opened Frontmatter
  import opened FrontmatterFacts

  // ---------------------------------------------------------------- lines

  /** Nothing but blanks, or blanks and then a comment. */
  ghost predicate BlankOrComment(line: string) {
    exists n :: CommentAt(line, n)
  }

  ghost predicate CommentAt(line: string, n: int) {
    0 <= n <= |line| && (forall i :: 0 <= i < n ==> IsWhitespace(line[i])) && (n == |line| || line[n] == '#')
  }

  lemma {:induction false} TrimStartIs(s: string) returns (n: nat)
    ensures n <= |s| && TrimStart(s) == s[n..] && (forall i :: 0 <= i < n ==> IsWhitespace(s[i]))
    ensures n < |s| ==> !IsWhitespace(s[n])
  {
    hide IsWhitespace;
    if s != "" && IsWhitespace(s[0]) {
      var m := TrimStartIs(s[1..]);
      n := m + 1;
      assert s[1..][m..] == s[n..];
      forall i | 0 <= i < n
        ensures IsWhitespace(s[i])
      {
        if i > 0 { assert s[1..][i - 1] == s[i]; }
      }
      if n < |s| { assert s[1..][m] == s[n]; }
    } else {
      n := 0;
    }
  }

  lemma {:induction false} TrimEndIsEmpty(s: string)
    ensures TrimEnd(s) == "" <==> Blank(s)
  {
    hide IsWhitespace;
    if s != "" && IsWhitespace(s[|s| - 1]) {
      TrimEndIsEmpty(s[..|s| - 1]);
      if Blank(s[..|s| - 1]) {
        forall i | 0 <= i < |s|
          ensures IsWhitespace(s[i])
        {
          if i < |s| - 1 { assert s[..|s| - 1][i] == s[i]; }
        }
      }
      if Blank(s) {
        var front := s[..|s| - 1];
        forall i | 0 <= i < |front|
          ensures IsWhitespace(front[i])
        {
          assert front[i] == s[i];
        }
      }
    }
  }

  lemma HashIsNoBlank()
    ensures !IsWhitespace('#') && IsWhitespace(' ')
  {
  }

  lemma SkippedIff(line: string)
    ensures Skipped(line) <==> BlankOrComment(line)
  {
    hide IsWhitespace;
    var n := TrimStartIs(line);
    var t := TrimStart(line);
    TrimEndIsEmpty(t);
    HashIsNoBlank();
    if n < |line| {
      assert t[0] == line[n] && !Blank(t);
    } else {
      assert t == "";
    }
    if Skipped(line) { assert CommentAt(line, n); }
    if m :| CommentAt(line, m) {
      assert n <= m by { assert forall i :: 0 <= i < m ==> IsWhitespace(line[i]); }
      assert m <= n by { assert forall i :: 0 <= i < n ==> line[i] != '#'; }
    }
  }

  /** A line that is neither blank, nor a comment, nor set in: the place of a field. */
  ghost predicate Flush(line: string) {
    !BlankOrComment(line) && line != "" && line[0] != ' '
  }

  // ---------------------------------------------------------------- keys

  /** The text before the first colon. */
  ghost predicate IsKey(line: string, key: string) {
    key + ":" <= line && ':' !in key
  }

  lemma {:induction false} SplitOnceIs(s: string, sep: char)
    ensures SplitOnce(s, sep).None? <==> sep !in s
    ensures SplitOnce(s, sep).Some? ==>
      var (k, v) := SplitOnce(s, sep).value;
      s == k + [sep] + v && sep !in k
  {
    if s != "" && s[0] != sep {
      SplitOnceIs(s[1..], sep);
      assert s == [s[0]] + s[1..];
    }
  }

  lemma KeyIsOne(line: string, a: string, b: string)
    requires IsKey(line, a) && IsKey(line, b)
    ensures a == b
  {
    NoColonBefore(line, a, b);
    NoColonBefore(line, b, a);
    assert line[..|a|] == a && line[..|b|] == b;
  }

  lemma NoColonBefore(line: string, a: string, b: string)
    requires IsKey(line, a) && IsKey(line, b)
    ensures |a| <= |b|
  {
    assert line[|b|] == ':';
    assert forall k :: 0 <= k < |a| ==> line[k] == a[k] && a[k] in a;
  }

  lemma SplitKey(line: string)
    requires SplitOnce(line, ':').Some?
    ensures IsKey(line, SplitOnce(line, ':').value.0)
    ensures line == SplitOnce(line, ':').value.0 + ":" + SplitOnce(line, ':').value.1
  {
    SplitOnceIs(line, ':');
  }

  /** One to sixty-four ASCII letters, digits, hyphens and underscores, a letter first. */
  predicate GoodKey(key: string) {
    && 1 <= |key| <= 64
    && ('a' <= key[0] <= 'z' || 'A' <= key[0] <= 'Z')
    && forall c :: c in key ==> 'a' <= c <= 'z' || 'A' <= c <= 'Z' || '0' <= c <= '9' || c == '-' || c == '_'
  }

  lemma GoodKeyIff(key: string)
    ensures GoodKey(key) <==> key != "" && |key| <= 64 && !exists i :: 0 <= i < |key| && !KeyChar(key[i], i == 0)
  {
    if GoodKey(key) {
      forall i | 0 <= i < |key|
        ensures KeyChar(key[i], i == 0)
      {
        assert key[i] in key;
      }
    }
  }

  /** Two keys that count as one: the same but for case, hyphens and underscores. */
  ghost predicate SameField(a: string, b: string)
    decreases |a| + |b|
  {
    if a != "" && (a[0] == '-' || a[0] == '_') then SameField(a[1..], b)
    else if b != "" && (b[0] == '-' || b[0] == '_') then SameField(a, b[1..])
    else if a == "" || b == "" then a == b
    else Lower(a[0]) == Lower(b[0]) && SameField(a[1..], b[1..])
  }

  lemma LowerTail(a: string)
    requires a != ""
    ensures AsciiLower(a)[1..] == AsciiLower(a[1..]) && AsciiLower(a)[0] == Lower(a[0])
    ensures Lower(a[0]) == '-' <==> a[0] == '-'
    ensures Lower(a[0]) == '_' <==> a[0] == '_'
  {
  }

  lemma {:induction false} SameFieldIff(a: string, b: string)
    ensures SameField(a, b) <==> FoldedKey(a) == FoldedKey(b)
    decreases |a| + |b|
  {
    hide AsciiLower, Lower;
    if a != "" { LowerTail(a); }
    if b != "" { LowerTail(b); }
    if a != "" && (a[0] == '-' || a[0] == '_') {
      SameFieldIff(a[1..], b);
    } else if b != "" && (b[0] == '-' || b[0] == '_') {
      SameFieldIff(a, b[1..]);
    } else if a != "" && b != "" {
      SameFieldIff(a[1..], b[1..]);
      var x, y := FoldedKey(a), FoldedKey(b);
      assert x == [Lower(a[0])] + FoldedKey(a[1..]) && y == [Lower(b[0])] + FoldedKey(b[1..]);
      assert x[1..] == FoldedKey(a[1..]) && y[1..] == FoldedKey(b[1..]);
    }
  }

  /** A key is taken exactly when it is well formed, not refused, new, and among the first 256. */
  lemma KeyAcceptedIff(lex: Lexicon, key: string, seen: set<string>)
    ensures AcceptKey(lex, key, seen) ==
      if GoodKey(key) && !lex.dangerous(key) && key != "constructor" && FoldedKey(key) !in seen && |seen| < 256
      then Some(seen + {FoldedKey(key)}) else None
  {
    hide FoldedKey;
    GoodKeyIff(key);
    assert "__proto__"[0] == '_';
  }

  // ---------------------------------------------------------------- lines inside a value

  lemma {:induction false} ScanPassesSetIn(lines: Lines, index: nat, base: Option<nat>, out: seq<BlockLine>, a: Account, i: nat)
    requires index <= |lines| && ScanBlock(lines, index, base, out, a).Some?
    requires index <= i < ScanBlock(lines, index, base, out, a).value.next
    ensures !Flush(lines[i])
    decreases |lines| - index
  {
    hide Charge;
    var line := lines[index];
    EmptyIsBlank(lines[i]);
    if line == "" {
      var b := Charge(a, line, 1).value;
      if i > index { ScanPassesSetIn(lines, index + 1, base, out + [EMPTY_LINE], b, i); }
    } else {
      var column := if base.Some? then base.value else Indent(line);
      var b := Charge(a, line, 1).value;
      assert line[0] == ' ';
      if i > index { ScanPassesSetIn(lines, index + 1, Some(column), out + [BlockLineOf(line, column)], b, i); }
    }
  }

  lemma EmptyIsBlank(line: string)
    ensures line == "" ==> BlankOrComment(line)
  {
    if line == "" { assert CommentAt(line, 0); }
  }

  lemma BlockPassesSetIn(lines: Lines, start: nat, raw: string, max: nat, a: Account, i: nat)
    requires start < |lines| && ParseBlock(lines, start, raw, max, a).Some?
    requires start < i < ParseBlock(lines, start, raw, max, a).value.next
    ensures !Flush(lines[i])
  {
    hide ScanBlock, Flush;
    ScanPassesSetIn(lines, start + 1, ParseHeader(raw).value.indent, [], a, i);
  }

  lemma MapStepPassesSetIn(lex: Lexicon, lines: Lines, s: MapState, i: nat)
    requires s.index <= |lines| && MapStep(lex, lines, s).Next?
    requires s.index <= i < MapStep(lex, lines, s).state.index
    ensures !Flush(lines[i])
  {
    hide Charge, ParseBlock, ParseScalar, AcceptKey, StripComment, Trim, SplitOnce, Skipped, BlankOrComment;
    var line := lines[s.index];
    SkippedIff(line);
    if i > s.index {
      var (key, value) := SplitOnce(line[Indent(line)..], ':').value;
      var raw, b := Trim(StripComment(value)), Charge(s.account, line, 1).value;
      BlockPassesSetIn(lines, s.index, raw, MAX_METADATA_VALUE_CHARS, b, i);
    }
  }

  lemma {:induction false} MapPassesSetIn(lex: Lexicon, lines: Lines, s: MapState, i: nat)
    requires s.index <= |lines| && ParseMap(lex, lines, s).Some?
    requires s.index <= i < ParseMap(lex, lines, s).value.index
    ensures !Flush(lines[i])
    decreases |lines| - s.index
  {
    hide MapStep, Flush;
    var t := MapStep(lex, lines, s).state;
    if i < t.index {
      MapStepPassesSetIn(lex, lines, s, i);
    } else {
      MapPassesSetIn(lex, lines, t, i);
    }
  }

  // ---------------------------------------------------------------- fields

  /** The line is a field with a key that may be used. */
  ghost predicate FieldLine(lex: Lexicon, line: string) {
    exists key :: IsKey(line, key) && GoodKey(key) && !lex.dangerous(key) && key != "constructor"
  }

  /** The value of a field: a block below its line, or a text on it. */
  ghost predicate FieldSays(lex: Lexicon, lines: Lines, i: nat, key: string, value: string) {
    && i < |lines| && IsKey(lines[i], key)
    && var rest := lines[i][|key| + 1..];
      var raw := Trim(StripComment(rest));
      if StartsBlock(raw)
      then exists a :: ParseBlock(lines, i, raw, MAX_FRONTMATTER_VALUE_CHARS, a).Some?
                       && ParseBlock(lines, i, raw, MAX_FRONTMATTER_VALUE_CHARS, a).value.value == value
      else ParseScalar(lex, rest) == Some(Text(value))
  }

  ghost function FlushLines(lines: Lines, n: nat): set<nat>
    requires n <= |lines|
  {
    set i: nat | 1 <= i < n && Flush(lines[i])
  }

  ghost predicate KeysSeen(lex: Lexicon, lines: Lines, n: nat, seen: set<string>)
    requires n <= |lines|
  {
    && (forall i, key :: 1 <= i < n && Flush(lines[i]) && IsKey(lines[i], key) ==> FoldedKey(key) in seen)
    && (forall i :: 1 <= i < n && Flush(lines[i]) ==> FieldLine(lex, lines[i]))
    && |seen| == |FlushLines(lines, n)| <= 256
  }

  /** No two fields so far have the same key. */
  ghost predicate FieldsDiffer(lines: Lines, n: nat)
    requires n <= |lines|
  {
    forall i, j, a, b :: 1 <= i < j < n && Flush(lines[i]) && Flush(lines[j]) && IsKey(lines[i], a) && IsKey(lines[j], b) ==> !SameField(a, b)
  }

  ghost predicate Said(lex: Lexicon, lines: Lines, n: nat, key: string, value: Option<string>) {
    value.Some? ==> exists i :: 1 <= i < n && FieldSays(lex, lines, i, key, value.value)
  }

  ghost predicate Tracked(lex: Lexicon, lines: Lines, s: FieldState) {
    && 1 <= s.index <= |lines|
    && KeysSeen(lex, lines, s.index, s.seen) && FieldsDiffer(lines, s.index)
    && Said(lex, lines, s.index, "name", s.name) && Said(lex, lines, s.index, "description", s.description)
  }

  lemma SameFlush(lines: Lines, n: nat, m: nat)
    requires 1 <= n <= m <= |lines| && forall i :: n <= i < m ==> !Flush(lines[i])
    ensures FlushLines(lines, m) == FlushLines(lines, n)
  {
  }

  lemma OneFlush(lines: Lines, n: nat, m: nat)
    requires 1 <= n < m <= |lines| && Flush(lines[n]) && forall i :: n < i < m ==> !Flush(lines[i])
    ensures FlushLines(lines, m) == FlushLines(lines, n) + {n} && n !in FlushLines(lines, n)
  {
  }

  /** Lines that are no fields change nothing. */
  lemma PassedLines(lex: Lexicon, lines: Lines, n: nat, m: nat, seen: set<string>)
    requires 1 <= n <= m <= |lines| && KeysSeen(lex, lines, n, seen) && FieldsDiffer(lines, n)
    requires forall i :: n <= i < m ==> !Flush(lines[i])
    ensures KeysSeen(lex, lines, m, seen) && FieldsDiffer(lines, m)
  {
    hide Flush, FoldedKey, FieldLine, IsKey, SameField;
    SameFlush(lines, n, m);
  }

  /** A field with a new key. */
  lemma PassedField(lex: Lexicon, lines: Lines, n: nat, m: nat, seen: set<string>, key: string)
    requires 1 <= n < m <= |lines| && KeysSeen(lex, lines, n, seen) && FieldsDiffer(lines, n)
    requires Flush(lines[n]) && FieldLine(lex, lines[n]) && IsKey(lines[n], key) && FoldedKey(key) !in seen && |seen| < 256
    requires forall i :: n < i < m ==> !Flush(lines[i])
    ensures KeysSeen(lex, lines, m, seen + {FoldedKey(key)}) && FieldsDiffer(lines, m)
  {
    hide Flush, FoldedKey, FieldLine, IsKey, SameField;
    OneFlush(lines, n, m);
    forall i, k | 1 <= i < m && Flush(lines[i]) && IsKey(lines[i], k)
      ensures FoldedKey(k) in seen + {FoldedKey(key)}
    {
      if i == n { KeyIsOne(lines[n], k, key); }
    }
    forall i, j, a, b | 1 <= i < j < m && Flush(lines[i]) && Flush(lines[j]) && IsKey(lines[i], a) && IsKey(lines[j], b)
      ensures !SameField(a, b)
    {
      if j == n {
        KeyIsOne(lines[n], b, key);
        SameFieldIff(a, b);
      }
    }
  }

  lemma GoodKeyIsFlush(line: string, key: string)
    requires IsKey(line, key) && GoodKey(key)
    ensures line != "" && line[0] == key[0] && line[0] != ' '
  {
    assert line[0] == key[0];
  }

  lemma SaidLater(lex: Lexicon, lines: Lines, n: nat, m: nat, key: string, value: Option<string>)
    requires n <= m && Said(lex, lines, n, key, value)
    ensures Said(lex, lines, m, key, value)
  {
    hide FieldSays;
  }

  lemma SkipIsTracked(lex: Lexicon, lines: Lines, s: FieldState, a: Account)
    requires Tracked(lex, lines, s) && s.index < |lines| && Skipped(lines[s.index])
    ensures Tracked(lex, lines, s.(index := s.index + 1, account := a))
  {
    hide KeysSeen, FieldsDiffer, Said, Skipped, BlankOrComment;
    SkippedIff(lines[s.index]);
    PassedLines(lex, lines, s.index, s.index + 1, s.seen);
    SaidLater(lex, lines, s.index, s.index + 1, "name", s.name);
    SaidLater(lex, lines, s.index, s.index + 1, "description", s.description);
  }

  /** The lines behind a field's line, up to the next one, are set in. */
  lemma EntryPassesSetIn(lex: Lexicon, lines: Lines, s: FieldState, key: string, value: string, i: nat)
    requires s.index < |lines| && FieldEntry(lex, lines, s, key, value).Next?
    requires s.index < i < FieldEntry(lex, lines, s, key, value).state.index
    ensures !Flush(lines[i])
  {
    hide Charge, ParseBlock, ParseScalar, AcceptKey, StripComment, Trim, Flush, ParseMap, AsciiLower;
    var raw, b := Trim(StripComment(value)), Charge(s.account, lines[s.index], 1).value;
    if AsciiLower(key) == "metadata" && raw == "" {
      MapPassesSetIn(lex, lines, MapState(s.index + 1, None, {}, 0, b), i);
    } else if StartsBlock(raw) {
      BlockPassesSetIn(lines, s.index, raw, MAX_FRONTMATTER_VALUE_CHARS, b, i);
    }
  }

  lemma EntrySays(lex: Lexicon, lines: Lines, s: FieldState, key: string, value: string)
    requires s.index < |lines| && lines[s.index] == key + ":" + value && IsKey(lines[s.index], key)
    requires FieldEntry(lex, lines, s, key, value).Next?
    ensures
      var t := FieldEntry(lex, lines, s, key, value).state;
      && t.seen == AcceptKey(lex, key, s.seen).value
      && (t.name == s.name || (key == "name" && t.name.Some? && FieldSays(lex, lines, s.index, "name", t.name.value)))
      && (t.description == s.description
          || (key == "description" && t.description.Some? && FieldSays(lex, lines, s.index, "description", t.description.value)))
  {
    hide Charge, ParseBlock, ParseScalar, AcceptKey, StripComment, Trim, ParseMap, IsKey, AsciiLower;
    assert lines[s.index][|key| + 1..] == value;
  }

  lemma EntryIsTracked(lex: Lexicon, lines: Lines, s: FieldState, key: string, value: string)
    requires Tracked(lex, lines, s) && s.index < |lines| && !Skipped(lines[s.index])
    requires SplitOnce(lines[s.index], ':') == Some((key, value)) && FieldEntry(lex, lines, s, key, value).Next?
    ensures Tracked(lex, lines, FieldEntry(lex, lines, s, key, value).state)
  {
    hide KeysSeen, FieldsDiffer, FieldEntry, AcceptKey, FoldedKey, FieldSays, Skipped, BlankOrComment, SplitOnce, GoodKey, IsKey;
    var n, t := s.index, FieldEntry(lex, lines, s, key, value).state;
    SplitKey(lines[n]);
    SkippedIff(lines[n]);
    EntryTakesKey(lex, lines, s, key, value);
    KeyAcceptedIff(lex, key, s.seen);
    GoodKeyIsFlush(lines[n], key);
    assert Flush(lines[n]) && FieldLine(lex, lines[n]);
    forall i | n < i < t.index
      ensures !Flush(lines[i])
    {
      EntryPassesSetIn(lex, lines, s, key, value, i);
    }
    PassedField(lex, lines, n, t.index, s.seen, key);
    EntrySays(lex, lines, s, key, value);
    SaidLater(lex, lines, n, t.index, "name", s.name);
    SaidLater(lex, lines, n, t.index, "description", s.description);
  }

  lemma EntryTakesKey(lex: Lexicon, lines: Lines, s: FieldState, key: string, value: string)
    requires s.index < |lines| && FieldEntry(lex, lines, s, key, value).Next?
    ensures AcceptKey(lex, key, s.seen).Some?
  {
  }

  lemma {:induction false} FieldsAreTracked(lex: Lexicon, lines: Lines, s: FieldState)
    requires Tracked(lex, lines, s) && ParseFields(lex, lines, s).Some?
    ensures Tracked(lex, lines, ParseFields(lex, lines, s).value)
    decreases |lines| - s.index
  {
    hide Tracked, FieldEntry, Skipped, SplitOnce, Charge;
    TrackedIndex(lex, lines, s);
    match FieldStep(lex, lines, s)
    case Stop =>
    case Next(t) =>
      var line := lines[s.index];
      if Skipped(line) {
        SkipIsTracked(lex, lines, s, t.account);
      } else {
        var (key, value) := SplitOnce(line, ':').value;
        EntryIsTracked(lex, lines, s, key, value);
      }
      FieldsAreTracked(lex, lines, t);
  }

  lemma TrackedIndex(lex: Lexicon, lines: Lines, s: FieldState)
    requires Tracked(lex, lines, s)
    ensures 1 <= s.index <= |lines|
  {
  }

  // ---------------------------------------------------------------- accepted documents

  /** Lower-case letters, digits and single hyphens inside. */
  predicate SlugName(name: string) {
    && 1 <= |name| <= 64
    && (forall c :: c in name ==> 'a' <= c <= 'z' || '0' <= c <= '9' || c == '-')
    && name[0] != '-' && name[|name| - 1] != '-'
    && forall i :: 0 < i < |name| && name[i] == '-' ==> name[i - 1] != '-'
  }

  lemma SlugNameIff(name: string)
    ensures SlugName(name) <==> ValidName(name)
  {
    if SlugName(name) {
      forall i | 0 <= i < |name|
        ensures NameChar(name[i])
      {
        assert name[i] in name;
      }
    }
  }

  /** What an accepted document is, line by line. */
  ghost predicate GoodDocument(lex: Lexicon, lines: Lines, d: Document) {
    && 0 < d.close < |lines| && lines[0] == "---" && lines[d.close] == "---"
    && (forall i :: 1 <= i < d.close && Flush(lines[i]) ==> FieldLine(lex, lines[i]))
    && FieldsDiffer(lines, d.close)
    && |FlushLines(lines, d.close)| <= 256
    && (exists i :: 1 <= i < d.close && FieldSays(lex, lines, i, "name", d.name))
    && (exists i :: 1 <= i < d.close && FieldSays(lex, lines, i, "description", d.description))
    && SlugName(d.name)
    && |d.description| <= 1024 && !Blank(d.description)
    && d.account.lines == d.close + 1 <= 4_096 && d.account.bytes <= 131_072
  }

  lemma NothingTracked(lex: Lexicon, lines: Lines, a: Account)
    requires |lines| >= 1
    ensures Tracked(lex, lines, FieldState(1, {}, None, None, a))
  {
    assert FlushLines(lines, 1) == {};
  }

  /** Every accepted document is one. */
  lemma AcceptedIsGood(lex: Lexicon, markdown: string)
    requires Parse(lex, markdown).Some?
    ensures markdown == "" || markdown[0] as int != 0xFEFF
    ensures GoodDocument(lex, Split(Normalized(markdown), '\n'), Parse(lex, markdown).value)
  {
    hide ParseFields, Normalized, Split, KeysSeen, FieldsDiffer, FieldSays, Utf8, ValidName, Trim, SlugName, Flush, FieldLine;
    var lines, d := Split(Normalized(markdown), '\n'), Parse(lex, markdown).value;
    AcceptedIsExactlyCounted(lex, markdown);
    var a := Charge(Account(0, 0), FENCE, 1).value;
    var s := FieldState(1, {}, None, None, a);
    NothingTracked(lex, lines, a);
    FieldsAreTracked(lex, lines, s);
    SlugNameIff(d.name);
    KeysSeenSays(lex, lines, d.close, ParseFields(lex, lines, s).value.seen);
    TrimIsBlank(d.description);
  }

  lemma KeysSeenSays(lex: Lexicon, lines: Lines, n: nat, seen: set<string>)
    requires n <= |lines| && KeysSeen(lex, lines, n, seen)
    ensures (forall i :: 1 <= i < n && Flush(lines[i]) ==> FieldLine(lex, lines[i])) && |FlushLines(lines, n)| <= 256
  {
    hide FieldLine, Flush, IsKey;
  }

  lemma TrimIsBlank(s: string)
    ensures Trim(s) == "" <==> Blank(s)
  {
    hide IsWhitespace;
    var n := TrimStartIs(s);
    TrimEndIsEmpty(TrimStart(s));
    if n < |s| {
      assert s[n..][0] == s[n];
    }
  }

  // ---------------------------------------------------------------- line ends

  lemma {:induction false} TextStays(a: string, x: string)
    requires '\r' !in a
    ensures Normalized(a + x) == a + Normalized(x)
  {
    if a == "" {
      assert a + x == x;
    } else {
      assert (a + x)[0] == a[0] && a[0] in a && (a + x)[1..] == a[1..] + x;
      TextStays(a[1..], x);
      assert a == [a[0]] + a[1..];
    }
  }

  lemma EndNormalizes(b: string)
    ensures Normalized("\n" + b) == "\n" + Normalized(b) && Normalized("\r\n" + b) == "\n" + Normalized(b)
    ensures (b == "" || b[0] != '\n') ==> Normalized("\r" + b) == "\n" + Normalized(b)
  {
    var lf, crlf, cr := "\n" + b, "\r\n" + b, "\r" + b;
    assert lf[1..] == b && crlf[2..] == b && crlf[1] == '\n' && cr[1..] == b;
  }

  /** Text without carriage returns stays, and each kind of line end becomes one line feed. */
  lemma LineEnds(a: string, b: string)
    requires '\r' !in a
    ensures Normalized(a) == a
    ensures Normalized(a + ("\n" + b)) == a + ("\n" + Normalized(b))
    ensures Normalized(a + ("\r\n" + b)) == a + ("\n" + Normalized(b))
    ensures (b == "" || b[0] != '\n') ==> Normalized(a + ("\r" + b)) == a + ("\n" + Normalized(b))
  {
    TextStays(a, "");
    assert a + "" == a && Normalized("") == "";
    EndNormalizes(b);
    TextStays(a, "\n" + b);
    TextStays(a, "\r\n" + b);
    TextStays(a, "\r" + b);
  }

  // ---------------------------------------------------------------- entries of the metadata map

  /** The value of a metadata entry is a text of at most 4096 characters. */
  ghost predicate MetadataValue(lex: Lexicon, lines: Lines, i: nat, value: string, a: Account)
    requires i < |lines|
  {
    var raw := Trim(StripComment(value));
    if StartsBlock(raw) then ParseBlock(lines, i, raw, 4_096, a).Some?
    else ParseScalar(lex, value).Some? && ParseScalar(lex, value).value.Text? && |ParseScalar(lex, value).value.value| <= 4_096
  }

  lemma IndentIs(n: nat, rest: string)
    requires rest != "" && rest[0] != ' '
    ensures Indent(Spaces(n) + rest) == n
  {
    if n > 0 {
      assert (Spaces(n) + rest)[1..] == Spaces(n - 1) + rest;
      IndentIs(n - 1, rest);
    } else {
      assert Spaces(0) + rest == rest;
    }
  }

  lemma SetInIsNotSkipped(n: nat, rest: string)
    requires rest != "" && !IsWhitespace(rest[0]) && rest[0] != '#'
    ensures !Skipped(Spaces(n) + rest)
  {
    hide IsWhitespace;
    var line := Spaces(n) + rest;
    SkippedIff(line);
    HashIsNoBlank();
    assert line[n] == rest[0];
    forall m
      ensures !CommentAt(line, m)
    {
      if m > n { assert !IsWhitespace(line[n]); }
      if 0 <= m < n { assert line[m] == ' '; }
    }
  }

  lemma SplitKeyIs(key: string, value: string)
    requires ':' !in key
    ensures SplitOnce(key + ":" + value, ':') == Some((key, value))
  {
    var line := key + ":" + value;
    assert line[|key|] == ':' && ':' in line;
    SplitOnceIs(line, ':');
    var (k, v) := SplitOnce(line, ':').value;
    assert IsKey(line, key) && IsKey(line, k);
    KeyIsOne(line, key, k);
    assert line[|key| + 1..] == value && line[|k| + 1..] == v;
  }

  /** An entry is taken exactly when its indentation, its key, the number of entries, the limits and its value allow it. */
  lemma MapEntryIff(lex: Lexicon, lines: Lines, s: MapState, n: nat, key: string, value: string)
    requires s.index < |lines| && lines[s.index] == Spaces(n) + (key + ":" + value) && n >= 1
    requires key != "" && ':' !in key && !IsWhitespace(key[0]) && key[0] != '#'
    ensures !MapStep(lex, lines, s).Stop?
    ensures MapStep(lex, lines, s).Next? <==>
      && (s.indent.None? || s.indent == Some(n))
      && GoodKey(key) && !lex.dangerous(key) && key != "constructor" && FoldedKey(key) !in s.seen && |s.seen| < 256
      && s.entries < 128
      && Charge(s.account, lines[s.index], 1).Some?
      && MetadataValue(lex, lines, s.index, value, Charge(s.account, lines[s.index], 1).value)
  {
    hide Charge, ParseBlock, AcceptKey, StripComment, Trim, IsWhitespace, FoldedKey, Skipped, SplitOnce, GoodKey, Indent, ParseScalar;
    var line, rest := lines[s.index], key + ":" + value;
    assert rest[0] == key[0];
    assert !IsWhitespace(key[0]) ==> key[0] != ' ' by { HashIsNoBlank(); }
    SetInIsNotSkipped(n, rest);
    IndentIs(n, rest);
    assert line[0] == ' ' && line[..1] == " " && line[n..] == rest;
    assert line != FENCE by { assert FENCE[0] == '-'; }
    SplitKeyIs(key, value);
    KeyAcceptedIff(lex, key, s.seen);
    if Trim(StripComment(value)) == "" { NoValueIsNone(lex, value); }
  }

  /** A field whose key reads `metadata` opens the map when nothing follows on its line, and is no block. */
  lemma MetadataOpensMap(lex: Lexicon, lines: Lines, s: FieldState, key: string, value: string)
    requires s.index < |lines| && AcceptKey(lex, key, s.seen).Some? && Charge(s.account, lines[s.index], 1).Some?
    requires Reads(key, "metadata")
    ensures
      var raw, b := Trim(StripComment(value)), Charge(s.account, lines[s.index], 1).value;
      && (raw == "" ==>
          match ParseMap(lex, lines, MapState(s.index + 1, None, {}, 0, b))
          case None => FieldEntry(lex, lines, s, key, value) == Fail
          case Some(m) => FieldEntry(lex, lines, s, key, value).Next? && FieldEntry(lex, lines, s, key, value).state.index == m.index)
      && (raw != "" && (raw[0] == '|' || raw[0] == '>') ==> FieldEntry(lex, lines, s, key, value) == Fail)
  {
    hide Charge, ParseBlock, AcceptKey, StripComment, Trim, ParseMap, ParseScalar, AsciiLower, Reads;
    ReadsIff(key, "metadata");
    var bars := "|>";
    assert bars[0] == '|' && bars[1] == '>';
  }

  lemma NoValueIsNone(lex: Lexicon, value: string)
    requires Trim(StripComment(value)) == ""
    ensures ParseScalar(lex, value).None? && !StartsBlock("")
  {
  }
}
