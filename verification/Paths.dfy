/**
 Relative bundle paths: how text splits into components, which paths are accepted, and which
 path on disk a component list names.
 */
module Paths {
  import opened Digest

  // ---------------------------------------------------------------- splitting and joining

  function Split(s: string, sep: char): (parts: seq<string>)
    ensures |parts| >= 1
  {
    if s == "" then [""]
    else if s[0] == sep then [""] + Split(s[1..], sep)
    else
      var rest := Split(s[1..], sep);
      [[s[0]] + rest[0]] + rest[1..]
  }

  function Join(parts: seq<string>, sep: char): string {
    if parts == [] then ""
    else if |parts| == 1 then parts[0]
    else parts[0] + [sep] + Join(parts[1..], sep)
  }

  lemma {:induction false} SplitPartsAreFree(s: string, sep: char)
    ensures forall p :: p in Split(s, sep) ==> sep !in p
  {
    if s != "" {
      SplitPartsAreFree(s[1..], sep);
      var rest := Split(s[1..], sep);
      assert forall p :: p in rest[1..] ==> p in rest;
      assert rest[0] in rest;
    }
  }

  lemma {:induction false} SplitPrefix(p: string, rest: string, sep: char)
    requires sep !in p
    ensures Split(p + [sep] + rest, sep) == [p] + Split(rest, sep)
  {
    var whole := p + [sep] + rest;
    if p == "" {
      assert whole[1..] == rest;
    } else {
      assert whole[1..] == p[1..] + [sep] + rest;
      SplitPrefix(p[1..], rest, sep);
      assert p == [p[0]] + p[1..];
    }
  }

  lemma {:induction false} SplitFree(p: string, sep: char)
    requires sep !in p
    ensures Split(p, sep) == [p]
  {
    if p != "" {
      SplitFree(p[1..], sep);
      assert p == [p[0]] + p[1..];
    }
  }

  lemma {:induction false} SplitJoin(parts: seq<string>, sep: char)
    requires parts != []
    requires forall p :: p in parts ==> sep !in p
    ensures Split(Join(parts, sep), sep) == parts
  {
    if |parts| == 1 {
      SplitFree(parts[0], sep);
    } else {
      SplitJoin(parts[1..], sep);
      SplitPrefix(parts[0], Join(parts[1..], sep), sep);
      assert parts == [parts[0]] + parts[1..];
    }
  }

  // ---------------------------------------------------------------- the path on disk

  /** The file system ignores `.` components inside a path. */
  function WithoutDots(parts: seq<string>): seq<string> {
    if parts == [] then []
    else if parts[0] == "." then WithoutDots(parts[1..])
    else [parts[0]] + WithoutDots(parts[1..])
  }

  /** The relative path of the file that opening `path` below a directory reaches. */
  function OnDisk(path: string): string {
    Join(WithoutDots(Split(path, '/')), '/')
  }

  lemma {:induction false} WithoutDotsSpec(parts: seq<string>)
    ensures forall p :: p in WithoutDots(parts) <==> p in parts && p != "."
    ensures "." !in parts ==> WithoutDots(parts) == parts
  {
    if parts != [] {
      WithoutDotsSpec(parts[1..]);
      assert parts == [parts[0]] + parts[1..];
    }
  }

  /** A path iterator reports a leading `.` and drops every later one. */
  predicate LeadsWithDot(path: string) {
    Split(path, '/')[0] == "."
  }

  /** Reaching a file by the path a directory walk reports for it reaches the same file. */
  lemma OnDiskIdempotent(path: string)
    requires !LeadsWithDot(path)
    ensures OnDisk(OnDisk(path)) == OnDisk(path)
  {
    var parts := Split(path, '/');
    var clean := WithoutDots(parts);
    WithoutDotsSpec(parts);
    WithoutDotsSpec(clean);
    SplitPartsAreFree(path, '/');
    assert parts[0] in clean;
    SplitJoin(clean, '/');
  }

  // ---------------------------------------------------------------- accepted paths

  function Lower(c: char): char {
    if 'A' <= c <= 'Z' then (c as int + 32) as char else c
  }

  function AsciiLower(s: string): (r: string)
    ensures |r| == |s|
  {
    seq(|s|, i requires 0 <= i < |s| => Lower(s[i]))
  }

  predicate IsControl(c: char) {
    c as int < 0x20 || 0x7f <= c as int < 0xa0
  }

  const RESERVED_CHARACTERS := ":<>\"|?*"

  const RESERVED_STEMS := {
    "con", "prn", "aux", "nul",
    "com1", "com2", "com3", "com4", "com5", "com6", "com7", "com8", "com9",
    "lpt1", "lpt2", "lpt3", "lpt4", "lpt5", "lpt6", "lpt7", "lpt8", "lpt9"
  }

  const AGENT_RESERVED := {
    ".claude-plugin", ".agents", ".codex", ".cursor", ".windsurf", ".mcp", ".mcp.json"
  }

  predicate EndsWithDotOrSpace(s: string) {
    s != "" && (s[|s| - 1] == '.' || s[|s| - 1] == ' ')
  }

  /** `is_reserved_windows_name` does not hold: the text before the first dot is no device name. */
  predicate FreeStem(name: string) {
    AsciiLower(Split(name, '.')[0]) !in RESERVED_STEMS
  }

  predicate AgentReserved(part: string) {
    AsciiLower(part) in AGENT_RESERVED
  }

  /** One component, as a path iterator yields it. */
  predicate ValidComponent(name: string) {
    && name != "" && name != ".."
    && !EndsWithDotOrSpace(name)
    && (forall c :: c in name ==> c !in RESERVED_CHARACTERS)
    && |Utf8(name)| <= 255
    && FreeStem(name)
  }

  const MAX_PATH_UNITS := 4096

  /** The length of a text in UTF-16 units. */
  function Utf16Length(s: string): nat {
    if s == "" then 0 else (if s[0] as int < 0x1_0000 then 1 else 2) + Utf16Length(s[1..])
  }

  lemma {:induction false} Utf16Bound(s: string)
    ensures |s| <= Utf16Length(s) <= 2 * |s|
  {
    if s != "" { Utf16Bound(s[1..]); }
  }

  predicate IsLetter(c: char) {
    'a' <= c <= 'z' || 'A' <= c <= 'Z'
  }

  /**
   Acceptance of a path. Component rules apply to what a path iterator yields, and that iterator
   drops a `.` anywhere but in front: `a/./b` is accepted.
   */
  predicate ValidPath(path: string) {
    var parts := Split(path, '/');
    && path != ""
    && (forall c :: c in path ==> !IsControl(c) && c != '\\')
    && Utf16Length(path) <= MAX_PATH_UNITS
    && (forall p :: p in parts ==> p != "")
    && !(|path| >= 2 && IsLetter(path[0]) && path[1] == ':')
    && !EndsWithDotOrSpace(path)
    && !LeadsWithDot(path)
    && (forall p :: p in WithoutDots(parts) ==> ValidComponent(p))
    && (forall p :: p in parts ==> !AgentReserved(p))
  }

  /** `validate_skill_name`: one path component. */
  predicate ValidSkillName(name: string) {
    && name != "" && name != "." && name != ".."
    && '/' !in name && '\\' !in name
    && ValidPath(name)
  }

  lemma SkillNameHasNoBar(name: string)
    requires ValidSkillName(name)
    ensures '|' !in name
  {
    SplitFree(name, '/');
    WithoutDotsSpec([name]);
    assert name in WithoutDots(Split(name, '/'));
    assert RESERVED_CHARACTERS[4] == '|';
  }
}
