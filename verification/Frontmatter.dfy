/** The frontmatter of `SKILL.md`: a line parser that counts every line it passes. */
module Frontmatter {
  import opened Options
  import opened Digest
  import opened Paths
  import opened Scalars

  const MAX_FRONTMATTER_BYTES := 128 * 1024
  const MAX_FRONTMATTER_LINES := 4_096
  const MAX_FRONTMATTER_FIELDS := 256
  const MAX_METADATA_FIELDS := 128
  const MAX_METADATA_VALUE_CHARS := 4_096
  const FENCE := "---"

  type Lines = seq<string>

  // ---------------------------------------------------------------- accounting

  datatype Account = Account(bytes: nat, lines: nat)

  predicate WithinLimits(a: Account) {
    a.lines <= MAX_FRONTMATTER_LINES && a.bytes <= MAX_FRONTMATTER_BYTES
  }

  /** `account_frontmatter_line_inner`. */
  function Charge(a: Account, line: string, separator: nat): Option<Account> {
    var b := Account(a.bytes + |Utf8(line)| + separator, a.lines + 1);
    if WithinLimits(b) then Some(b) else None
  }

  // ---------------------------------------------------------------- block scalars

  datatype Chomp = Strip | Clip | Keep

  datatype Header = Header(folded: bool, chomp: Chomp, indent: Option<nat>)

  function Indicators(s: string, h: Header): Option<Header> {
    if s == "" then Some(h)
    else if s[0] == '-' && h.chomp.Clip? then Indicators(s[1..], h.(chomp := Strip))
    else if s[0] == '+' && h.chomp.Clip? then Indicators(s[1..], h.(chomp := Keep))
    else if '1' <= s[0] <= '9' && h.indent.None? then Indicators(s[1..], h.(indent := Some(s[0] as int - 48)))
    else None
  }

  predicate StartsBlock(raw: string) {
    StartsWithAny(raw, "|>")
  }

  /** `parse_block_header`. */
  function ParseHeader(raw: string): Option<Header> {
    if !StartsBlock(raw) then None else Indicators(raw[1..], Header(raw[0] == '>', Clip, None))
  }

  datatype BlockLine = BlockLine(value: string, blank: bool, deeper: bool)

  const EMPTY_LINE := BlockLine("", true, false)

  function Indent(line: string): (n: nat)
    ensures n <= |line|
  {
    if line != "" && line[0] == ' ' then 1 + Indent(line[1..]) else 0
  }

  function BlockLineOf(line: string, base: nat): BlockLine
    requires base <= |line|
  {
    BlockLine(line[base..], Trim(line[base..]) == "", Indent(line) > base)
  }

  datatype Scan = Scan(out: seq<BlockLine>, next: nat, account: Account)

  /** The lines of a block scalar from `index` on; `None` on a tab or past a limit. */
  function ScanBlock(lines: Lines, index: nat, base: Option<nat>, out: seq<BlockLine>, a: Account): (r: Option<Scan>)
    requires index <= |lines|
    ensures r.Some? ==> index <= r.value.next <= |lines|
    decreases |lines| - index
  {
    if index == |lines| || lines[index] == FENCE then Some(Scan(out, index, a))
    else
      var line := lines[index];
      if line == "" then
        match Charge(a, line, 1)
        case None => None
        case Some(b) => ScanBlock(lines, index + 1, base, out + [EMPTY_LINE], b)
      else if line[0] == '\t' then None
      else
        var indent := Indent(line);
        if indent == 0 then Some(Scan(out, index, a))
        else
          var column := if base.Some? then base.value else indent;
          if indent < column then Some(Scan(out, index, a))
          else
            match Charge(a, line, 1)
            case None => None
            case Some(b) => ScanBlock(lines, index + 1, Some(column), out + [BlockLineOf(line, column)], b)
  }

  /** What stands between two lines of a block scalar. */
  function Glue(folded: bool, previous: BlockLine, line: BlockLine): string {
    if folded && !previous.blank && !line.blank && !previous.deeper && !line.deeper then " "
    else if !(folded && previous.blank && !line.blank) then "\n"
    else ""
  }

  function Assembled(folded: bool, out: seq<BlockLine>): string {
    if out == [] then ""
    else
      var n := |out| - 1;
      Assembled(folded, out[..n]) + (if n == 0 then "" else Glue(folded, out[n - 1], out[n])) + out[n].value
  }

  function DropNewlines(s: string): string {
    if s != "" && s[|s| - 1] == '\n' then DropNewlines(s[..|s| - 1]) else s
  }

  function Chomped(chomp: Chomp, s: string): string {
    match chomp
    case Strip => DropNewlines(s)
    case Clip => if DropNewlines(s) == "" then "" else DropNewlines(s) + "\n"
    case Keep => s
  }

  function BlockValue(h: Header, out: seq<BlockLine>): string {
    Chomped(h.chomp, Assembled(h.folded, out) + if out == [] then "" else "\n")
  }

  datatype Block = Block(value: string, next: nat, account: Account)

  /** `parse_block_scalar` below the line `start`. */
  function ParseBlock(lines: Lines, start: nat, raw: string, max: nat, a: Account): (r: Option<Block>)
    requires start < |lines|
    ensures r.Some? ==> start < r.value.next <= |lines|
  {
    match ParseHeader(raw)
    case None => None
    case Some(h) =>
      match ScanBlock(lines, start + 1, h.indent, [], a)
      case None => None
      case Some(scan) =>
        var value := BlockValue(h, scan.out);
        if |value| > max then None else Some(Block(value, scan.next, scan.account))
  }

  // ---------------------------------------------------------------- keys

  predicate KeyChar(c: char, first: bool) {
    'a' <= c <= 'z' || 'A' <= c <= 'Z' || (!first && ('0' <= c <= '9' || c == '-' || c == '_'))
  }

  function WithoutDashes(s: string): string {
    if s == "" then "" else (if s[0] == '-' || s[0] == '_' then [] else [s[0]]) + WithoutDashes(s[1..])
  }

  function FoldedKey(key: string): string {
    WithoutDashes(AsciiLower(key))
  }

  /** `validate_frontmatter_key`: the keys seen so far, with this one. */
  function AcceptKey(lex: Lexicon, key: string, seen: set<string>): Option<set<string>> {
    if key == "" || |key| > 64 || (exists i :: 0 <= i < |key| && !KeyChar(key[i], i == 0)) then None
    else if lex.dangerous(key) || FoldedKey(key) in seen || key == "__proto__" || key == "constructor" then None
    else if |seen + {FoldedKey(key)}| > MAX_FRONTMATTER_FIELDS then None
    else Some(seen + {FoldedKey(key)})
  }

  predicate Skipped(line: string) {
    Trim(line) == "" || StartsWithAny(TrimStart(line), "#")
  }

  // ---------------------------------------------------------------- the metadata map

  datatype MapState = MapState(index: nat, indent: Option<nat>, seen: set<string>, entries: nat, account: Account)

  datatype Step<T> = Stop | Fail | Next(state: T)

  /** One round of `parse_metadata_map`. */
  function MapStep(lex: Lexicon, lines: Lines, s: MapState): (r: Step<MapState>)
    requires s.index <= |lines|
    ensures r.Next? ==> s.index < r.state.index <= |lines|
  {
    if s.index == |lines| || lines[s.index] == FENCE then Stop
    else
      var line := lines[s.index];
      if Skipped(line) then
        match Charge(s.account, line, 1)
        case None => Fail
        case Some(b) => Next(s.(index := s.index + 1, account := b))
      else if line[..1] == "\t" then Fail
      else if Indent(line) == 0 then Stop
      else if s.indent.Some? && s.indent.value != Indent(line) then Fail
      else
        match SplitOnce(line[Indent(line)..], ':')
        case None => Fail
        case Some((key, value)) => MapEntry(lex, lines, s, key, value)
  }

  function MapEntry(lex: Lexicon, lines: Lines, s: MapState, key: string, value: string): (r: Step<MapState>)
    requires s.index < |lines|
    ensures r.Next? ==> s.index < r.state.index <= |lines|
  {
    var line := lines[s.index];
    var seen := AcceptKey(lex, key, s.seen);
    var charged := Charge(s.account, line, 1);
    var raw := Trim(StripComment(value));
    if seen.None? || s.entries + 1 > MAX_METADATA_FIELDS || charged.None? || raw == "" then Fail
    else
      var t := MapState(s.index + 1, Some(Indent(line)), seen.value, s.entries + 1, charged.value);
      if StartsBlock(raw) then
        match ParseBlock(lines, s.index, raw, MAX_METADATA_VALUE_CHARS, t.account)
        case None => Fail
        case Some(block) => Next(t.(index := block.next, account := block.account))
      else
        match ParseScalar(lex, value)
        case Some(Text(text)) => if |text| <= MAX_METADATA_VALUE_CHARS then Next(t) else Fail
        case _ => Fail
  }

  function ParseMap(lex: Lexicon, lines: Lines, s: MapState): (r: Option<MapState>)
    requires s.index <= |lines|
    ensures r.Some? ==> s.index <= r.value.index <= |lines|
    decreases |lines| - s.index
  {
    match MapStep(lex, lines, s)
    case Stop => Some(s)
    case Fail => None
    case Next(t) => ParseMap(lex, lines, t)
  }

  // ---------------------------------------------------------------- top-level fields

  datatype FieldState = FieldState(
    index: nat, seen: set<string>, name: Option<string>, description: Option<string>, account: Account)

  /** The state after a field's value. */
  function Assign(s: FieldState, key: string, v: Scalar): FieldState {
    if key == "name" && v.Text? then s.(name := Some(v.value))
    else if key == "description" && v.Text? then s.(description := Some(v.value))
    else s
  }

  /** One round of the loop in `validate_skill_markdown`; `Stop` stands before the closing line. */
  function FieldStep(lex: Lexicon, lines: Lines, s: FieldState): (r: Step<FieldState>)
    requires s.index <= |lines|
    ensures r.Next? ==> s.index < r.state.index <= |lines|
    ensures r.Stop? ==> s.index < |lines| && lines[s.index] == FENCE
  {
    if s.index == |lines| then Fail
    else
      var line := lines[s.index];
      if line == FENCE then Stop
      else if Skipped(line) then
        match Charge(s.account, line, 1)
        case None => Fail
        case Some(b) => Next(s.(index := s.index + 1, account := b))
      else
        match SplitOnce(line, ':')
        case None => Fail
        case Some((key, value)) => FieldEntry(lex, lines, s, key, value)
  }

  function FieldEntry(lex: Lexicon, lines: Lines, s: FieldState, key: string, value: string): (r: Step<FieldState>)
    requires s.index < |lines|
    ensures r.Next? ==> s.index < r.state.index <= |lines|
    ensures !r.Stop?
  {
    var seen := AcceptKey(lex, key, s.seen);
    var charged := Charge(s.account, lines[s.index], 1);
    if seen.None? || charged.None? then Fail
    else
      var raw := Trim(StripComment(value));
      var t := s.(index := s.index + 1, seen := seen.value, account := charged.value);
      if AsciiLower(key) == "metadata" && raw == "" then
        match ParseMap(lex, lines, MapState(t.index, None, {}, 0, t.account))
        case None => Fail
        case Some(m) => Next(t.(index := m.index, account := m.account))
      else if AsciiLower(key) == "metadata" && StartsBlock(raw) then Fail
      else if StartsBlock(raw) then
        match ParseBlock(lines, s.index, raw, MAX_FRONTMATTER_VALUE_CHARS, t.account)
        case None => Fail
        case Some(block) => Next(Assign(t.(index := block.next, account := block.account), key, Text(block.value)))
      else
        match ParseScalar(lex, value)
        case None => Fail
        case Some(v) => Next(Assign(t, key, v))
  }

  /** The state before the closing line. */
  function ParseFields(lex: Lexicon, lines: Lines, s: FieldState): (r: Option<FieldState>)
    requires s.index <= |lines|
    ensures r.Some? ==> s.index <= r.value.index < |lines| && lines[r.value.index] == FENCE
    decreases |lines| - s.index
  {
    match FieldStep(lex, lines, s)
    case Stop => Some(s)
    case Fail => None
    case Next(t) => ParseFields(lex, lines, t)
  }

  // ---------------------------------------------------------------- the document

  /** Line ends written as `\r\n` or `\r` become `\n`. */
  function Normalized(s: string): string {
    if s == "" then ""
    else if s[0] == '\r' then "\n" + Normalized(if |s| > 1 && s[1] == '\n' then s[2..] else s[1..])
    else [s[0]] + Normalized(s[1..])
  }

  predicate NameChar(c: char) {
    'a' <= c <= 'z' || '0' <= c <= '9' || c == '-'
  }

  predicate ValidName(name: string) {
    && 0 < |name| <= 64
    && (forall i :: 0 <= i < |name| ==> NameChar(name[i]))
    && name[0] != '-' && name[|name| - 1] != '-'
    && (forall i :: 0 < i < |name| ==> !(name[i - 1] == '-' && name[i] == '-'))
  }

  predicate ValidDescription(d: string) {
    Trim(d) != "" && |d| <= 1024
  }

  datatype Document = Document(name: string, description: string, close: nat, account: Account)

  /** What an accepted document says, and where its frontmatter ends. */
  function Parse(lex: Lexicon, markdown: string): Option<Document> {
    var lines := Split(Normalized(markdown), '\n');
    if StartsWithAny(markdown, [0xFEFF as char]) || lines[0] != FENCE then None
    else
      match Charge(Account(0, 0), FENCE, 1)
      case None => None
      case Some(a) =>
        match ParseFields(lex, lines, FieldState(1, {}, None, None, a))
        case None => None
        case Some(s) =>
          match Charge(s.account, FENCE, 0)
          case None => None
          case Some(b) =>
            if s.name.Some? && ValidName(s.name.value) && s.description.Some? && ValidDescription(s.description.value)
            then Some(Document(s.name.value, s.description.value, s.index, b))
            else None
  }

  // ---------------------------------------------------------------- the loops

  /** The first loop of `parse_block_scalar`. */
  method ReadBlockLines(lines: Lines, start: nat, base: Option<nat>, a: Account) returns (r: Option<Scan>)
    requires start <= |lines|
    ensures r == ScanBlock(lines, start, base, [], a)
  {
    var index, column, out, account := start, base, [], a;
    while index < |lines|
      invariant start <= index <= |lines|
      invariant ScanBlock(lines, index, column, out, account) == ScanBlock(lines, start, base, [], a)
    {
      var line := lines[index];
      if line == FENCE { break; }
      if line == "" {
        var charged := Charge(account, line, 1);
        if charged.None? { return None; }
        account, out, index := charged.value, out + [EMPTY_LINE], index + 1;
        continue;
      }
      if line[0] == '\t' { return None; }
      var indent := Indent(line);
      if indent == 0 { break; }
      if column.None? { column := Some(indent); }
      if indent < column.value { break; }
      var charged := Charge(account, line, 1);
      if charged.None? { return None; }
      account, out, index := charged.value, out + [BlockLineOf(line, column.value)], index + 1;
    }
    return Some(Scan(out, index, account));
  }

  /** The loop that joins the lines of a block. */
  method JoinBlockLines(folded: bool, out: seq<BlockLine>) returns (value: string)
    ensures value == Assembled(folded, out)
  {
    value := "";
    for n := 0 to |out|
      invariant value == Assembled(folded, out[..n])
    {
      assert out[..n + 1][..n] == out[..n];
      var glue := "";
      if n > 0 {
        var previous := out[n - 1];
        if folded && !previous.blank && !out[n].blank && !previous.deeper && !out[n].deeper {
          glue := " ";
        } else if !(folded && previous.blank && !out[n].blank) {
          glue := "\n";
        }
      }
      value := value + glue + out[n].value;
    }
    assert out[..|out|] == out;
  }

  method PopNewlines(s: string) returns (r: string)
    ensures r == DropNewlines(s)
  {
    r := s;
    while r != "" && r[|r| - 1] == '\n'
      invariant DropNewlines(r) == DropNewlines(s)
      decreases |r|
    {
      r := r[..|r| - 1];
    }
  }

  /** `parse_block_scalar`. */
  method ParseBlockScalar(lines: Lines, start: nat, raw: string, max: nat, a: Account) returns (r: Option<Block>)
    requires start < |lines|
    ensures r == ParseBlock(lines, start, raw, max, a)
  {
    var h := ParseHeader(raw);
    if h.None? { return None; }
    var scan := ReadBlockLines(lines, start + 1, h.value.indent, a);
    if scan.None? { return None; }
    var value := JoinBlockLines(h.value.folded, scan.value.out);
    value := value + if scan.value.out == [] then "" else "\n";
    match h.value.chomp {
      case Strip => value := PopNewlines(value);
      case Clip =>
        value := PopNewlines(value);
        if value != "" { value := value + "\n"; }
      case Keep =>
    }
    if |value| > max { return None; }
    return Some(Block(value, scan.value.next, scan.value.account));
  }

  /** `parse_metadata_map`. */
  method ParseMetadataMap(lex: Lexicon, lines: Lines, start: nat, a: Account) returns (r: Option<MapState>)
    requires start <= |lines|
    ensures r == ParseMap(lex, lines, MapState(start, None, {}, 0, a))
  {
    hide Charge, AcceptKey, ParseScalar, ParseBlock, SplitOnce, Skipped, StripComment, Trim, Indent;
    var s := MapState(start, None, {}, 0, a);
    while s.index < |lines|
      invariant start <= s.index <= |lines|
      invariant ParseMap(lex, lines, s) == ParseMap(lex, lines, MapState(start, None, {}, 0, a))
      decreases |lines| - s.index
    {
      var step := MapRound(lex, lines, s);
      match step {
        case Stop => return Some(s);
        case Fail => return None;
        case Next(t) => s := t;
      }
    }
    return Some(s);
  }

  method MapRound(lex: Lexicon, lines: Lines, s: MapState) returns (r: Step<MapState>)
    requires s.index <= |lines|
    ensures r == MapStep(lex, lines, s)
  {
    if s.index == |lines| || lines[s.index] == FENCE { return Stop; }
    var line := lines[s.index];
    if Skipped(line) {
      var charged := Charge(s.account, line, 1);
      return if charged.None? then Fail else Next(s.(index := s.index + 1, account := charged.value));
    }
    if line[..1] == "\t" { return Fail; }
    var indent := Indent(line);
    if indent == 0 { return Stop; }
    if s.indent.Some? && s.indent.value != indent { return Fail; }
    var field := SplitOnce(line[indent..], ':');
    if field.None? { return Fail; }
    var (key, value) := field.value;
    var seen := AcceptKey(lex, key, s.seen);
    if seen.None? || s.entries + 1 > MAX_METADATA_FIELDS { return Fail; }
    var charged := Charge(s.account, line, 1);
    if charged.None? { return Fail; }
    var stripped := StripYamlComment(value);
    var raw := Trim(stripped);
    if raw == "" { return Fail; }
    var t := MapState(s.index + 1, Some(indent), seen.value, s.entries + 1, charged.value);
    if StartsBlock(raw) {
      var block := ParseBlockScalar(lines, s.index, raw, MAX_METADATA_VALUE_CHARS, t.account);
      return if block.None? then Fail else Next(t.(index := block.value.next, account := block.value.account));
    }
    var scalar := ParseScalar(lex, value);
    return if scalar.Some? && scalar.value.Text? && |scalar.value.value| <= MAX_METADATA_VALUE_CHARS then Next(t) else Fail;
  }

  /** The loop of `validate_skill_markdown`. */
  method ReadFields(lex: Lexicon, lines: Lines, start: FieldState) returns (r: Option<FieldState>)
    requires start.index <= |lines|
    ensures r == ParseFields(lex, lines, start)
  {
    hide FieldStep;
    var s := start;
    while s.index < |lines|
      invariant start.index <= s.index <= |lines|
      invariant ParseFields(lex, lines, s) == ParseFields(lex, lines, start)
      decreases |lines| - s.index
    {
      var step := FieldRound(lex, lines, s);
      match step {
        case Stop => return Some(s);
        case Fail => return None;
        case Next(t) => s := t;
      }
    }
    EndFails(lex, lines, s);
    return None;
  }

  lemma EndFails(lex: Lexicon, lines: Lines, s: FieldState)
    requires s.index == |lines|
    ensures FieldStep(lex, lines, s) == Fail
  {
  }

  method FieldRound(lex: Lexicon, lines: Lines, s: FieldState) returns (r: Step<FieldState>)
    requires s.index < |lines|
    ensures r == FieldStep(lex, lines, s)
  {
    var line := lines[s.index];
    if line == FENCE { return Stop; }
    if Skipped(line) {
      var charged := Charge(s.account, line, 1);
      return if charged.None? then Fail else Next(s.(index := s.index + 1, account := charged.value));
    }
    var field := SplitOnce(line, ':');
    if field.None? { return Fail; }
    var (key, value) := field.value;
    var seen := AcceptKey(lex, key, s.seen);
    if seen.None? { return Fail; }
    var charged := Charge(s.account, line, 1);
    if charged.None? { return Fail; }
    var stripped := StripYamlComment(value);
    var raw := Trim(stripped);
    var t := s.(index := s.index + 1, seen := seen.value, account := charged.value);
    if AsciiLower(key) == "metadata" && raw == "" {
      var m := ParseMetadataMap(lex, lines, t.index, t.account);
      return if m.None? then Fail else Next(t.(index := m.value.index, account := m.value.account));
    }
    if AsciiLower(key) == "metadata" && StartsBlock(raw) { return Fail; }
    if StartsBlock(raw) {
      var block := ParseBlockScalar(lines, s.index, raw, MAX_FRONTMATTER_VALUE_CHARS, t.account);
      return if block.None? then Fail
        else Next(Assign(t.(index := block.value.next, account := block.value.account), key, Text(block.value.value)));
    }
    var scalar := ParseScalar(lex, value);
    return if scalar.None? then Fail else Next(Assign(t, key, scalar.value));
  }
}
