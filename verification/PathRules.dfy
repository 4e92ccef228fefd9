/**
 Which bundle paths are accepted, said of the characters of a path and of the pieces between its slashes,
 and why a file with an accepted path stays below the directory it is written to.
 */
module PathRules {
  import opened Digest
  import opened Paths

  // ---------------------------------------------------------------- pieces

  /** `s[i..j]` is a piece: it lies between two separators, or between one and an end. */
  ghost predicate PieceAt(s: string, sep: char, i: int, j: int) {
    0 <= i <= j <= |s| && Between(s, sep, i, j)
  }

  ghost predicate Between(s: string, sep: char, i: int, j: int)
    requires 0 <= i <= j <= |s|
  {
    && (i == 0 || s[i - 1] == sep) && (j == |s| || s[j] == sep)
    && forall k :: i <= k < j ==> s[k] != sep
  }

  ghost predicate IsPiece(s: string, sep: char, p: string) {
    exists i, j :: PieceAt(s, sep, i, j) && p == s[i..j]
  }

  lemma PieceOfTail(s: string, sep: char, i: int, j: int)
    requires s != "" && i >= 1
    ensures PieceAt(s, sep, i, j) <==> PieceAt(s[1..], sep, i - 1, j - 1) && (i >= 2 || s[0] == sep)
    ensures PieceAt(s, sep, i, j) ==> s[i..j] == s[1..][i - 1..j - 1]
  {
    var t := s[1..];
    if i <= j <= |s| {
      assert i >= 2 ==> s[i - 1] == t[i - 2];
      assert j < |s| ==> s[j] == t[j - 1];
      assert forall k :: i <= k < j ==> s[k] == t[k - 1];
      if PieceAt(t, sep, i - 1, j - 1) {
        forall k | i <= k < j
          ensures s[k] != sep
        {
          assert t[k - 1] != sep;
        }
      }
    }
  }

  /** The first part is the piece that starts at the start. */
  lemma {:induction false} FirstPart(s: string, sep: char)
    ensures |Split(s, sep)[0]| <= |s| && PieceAt(s, sep, 0, |Split(s, sep)[0]|)
    ensures Split(s, sep)[0] == s[..|Split(s, sep)[0]|]
  {
    if s != "" && s[0] != sep {
      FirstPart(s[1..], sep);
      var n := |Split(s[1..], sep)[0]|;
      assert forall k :: 1 <= k < n + 1 ==> s[k] == s[1..][k - 1];
      assert n < |s[1..]| ==> s[n + 1] == s[1..][n];
      assert s[..n + 1] == [s[0]] + s[1..][..n];
    }
  }

  lemma PieceEndsOnce(s: string, sep: char, i: int, j: int, k: int)
    requires PieceAt(s, sep, i, j) && PieceAt(s, sep, i, k)
    ensures j == k
  {
  }

  /** A piece of the tail that does not start at its start. */
  ghost predicate LaterPiece(s: string, sep: char, p: string) {
    exists i, j :: i >= 1 && PieceAt(s, sep, i, j) && p == s[i..j]
  }

  lemma IsPieceAt(s: string, sep: char, i: int, j: int)
    requires PieceAt(s, sep, i, j)
    ensures IsPiece(s, sep, s[i..j])
    ensures i >= 1 ==> LaterPiece(s, sep, s[i..j])
  {
  }

  lemma PieceIsAt(s: string, sep: char, p: string) returns (i: int, j: int)
    requires IsPiece(s, sep, p)
    ensures PieceAt(s, sep, i, j) && p == s[i..j]
  {
    i, j :| PieceAt(s, sep, i, j) && p == s[i..j];
  }

  lemma LaterPieceIsAt(s: string, sep: char, p: string) returns (i: int, j: int)
    requires LaterPiece(s, sep, p)
    ensures i >= 1 && PieceAt(s, sep, i, j) && p == s[i..j]
  {
    i, j :| i >= 1 && PieceAt(s, sep, i, j) && p == s[i..j];
  }

  lemma LaterIsTail(s: string, sep: char, p: string)
    requires s != ""
    ensures LaterPiece(s, sep, p) <==> (s[0] == sep && IsPiece(s[1..], sep, p)) || (s[0] != sep && LaterPiece(s[1..], sep, p))
  {
    hide Between, LaterPiece, IsPiece;
    var t := s[1..];
    if LaterPiece(s, sep, p) {
      var i, j := LaterPieceIsAt(s, sep, p);
      PieceOfTail(s, sep, i, j);
      IsPieceAt(t, sep, i - 1, j - 1);
    }
    if s[0] == sep && IsPiece(t, sep, p) {
      var i, j := PieceIsAt(t, sep, p);
      PieceOfTail(s, sep, i + 1, j + 1);
      IsPieceAt(s, sep, i + 1, j + 1);
    }
    if s[0] != sep && LaterPiece(t, sep, p) {
      var i, j := LaterPieceIsAt(t, sep, p);
      PieceOfTail(s, sep, i + 1, j + 1);
      IsPieceAt(s, sep, i + 1, j + 1);
    }
  }

  lemma PieceIsFirstOrLater(s: string, sep: char, p: string)
    ensures IsPiece(s, sep, p) <==> p == Split(s, sep)[0] || LaterPiece(s, sep, p)
  {
    FirstPart(s, sep);
    var n := |Split(s, sep)[0]|;
    assert s[0..n] == s[..n];
    if IsPiece(s, sep, p) {
      var i, j :| PieceAt(s, sep, i, j) && p == s[i..j];
      if i == 0 { PieceEndsOnce(s, sep, 0, j, n); }
    }
  }

  lemma {:induction false} LaterParts(s: string, sep: char, p: string)
    ensures p in Split(s, sep)[1..] <==> LaterPiece(s, sep, p)
  {
    if s != "" {
      LaterParts(s[1..], sep, p);
      LaterIsTail(s, sep, p);
      PieceIsFirstOrLater(s[1..], sep, p);
      var rest := Split(s[1..], sep);
      assert rest == [rest[0]] + rest[1..];
    }
  }

  lemma SplitStep(s: string, sep: char, p: string)
    ensures p in Split(s, sep) <==> IsPiece(s, sep, p)
  {
    LaterParts(s, sep, p);
    PieceIsFirstOrLater(s, sep, p);
    var parts := Split(s, sep);
    assert parts == [parts[0]] + parts[1..];
  }

  /** The parts of a split are exactly the pieces. */
  lemma SplitIsPieces(s: string, sep: char)
    ensures forall p :: p in Split(s, sep) <==> IsPiece(s, sep, p)
  {
    forall p
      ensures p in Split(s, sep) <==> IsPiece(s, sep, p)
    {
      SplitStep(s, sep, p);
    }
  }

  // ---------------------------------------------------------------- lengths

  /** Bytes of a text in UTF-8, counted from its end. */
  function ByteCount(s: string): nat {
    if s == "" then 0
    else
      var n := s[|s| - 1] as int;
      ByteCount(s[..|s| - 1]) + if n < 0x80 then 1 else if n < 0x800 then 2 else if n < 0x1_0000 then 3 else 4
  }

  /** Characters outside the basic plane, which take two UTF-16 units. */
  function Supplementary(s: string): nat {
    if s == "" then 0 else Supplementary(s[..|s| - 1]) + if s[|s| - 1] as int >= 0x1_0000 then 1 else 0
  }

  lemma {:induction false} Utf8Append(s: string, c: char)
    ensures Utf8(s + [c]) == Utf8(s) + Utf8Char(c)
  {
    if s == "" {
      assert "" + [c] == [c] && [c][1..] == "";
    } else {
      Utf8Append(s[1..], c);
      assert (s + [c])[1..] == s[1..] + [c];
    }
  }

  lemma {:induction false} ByteCountIsUtf8(s: string)
    ensures |Utf8(s)| == ByteCount(s)
  {
    if s != "" {
      var front, c := s[..|s| - 1], s[|s| - 1];
      ByteCountIsUtf8(front);
      Utf8Append(front, c);
      assert s == front + [c];
    }
  }

  lemma {:induction false} Utf16Append(s: string, c: char)
    ensures Utf16Length(s + [c]) == Utf16Length(s) + if c as int < 0x1_0000 then 1 else 2
  {
    if s == "" {
      assert "" + [c] == [c] && [c][1..] == "";
    } else {
      Utf16Append(s[1..], c);
      assert (s + [c])[1..] == s[1..] + [c];
    }
  }

  lemma {:induction false} UnitsAreCounted(s: string)
    ensures Utf16Length(s) == |s| + Supplementary(s)
  {
    if s != "" {
      var front, c := s[..|s| - 1], s[|s| - 1];
      UnitsAreCounted(front);
      Utf16Append(front, c);
      assert s == front + [c];
    }
  }

  // ---------------------------------------------------------------- names whatever their case

  /** The same text, except that capitals may stand for the lower-case letters of `t`. */
  predicate Reads(s: string, t: string) {
    |s| == |t| && forall i :: 0 <= i < |s| ==> s[i] == t[i] || ('A' <= s[i] <= 'Z' && s[i] as int + 32 == t[i] as int)
  }

  predicate NoCapitals(t: string) {
    forall c :: c in t ==> !('A' <= c <= 'Z')
  }

  lemma ReadsIff(s: string, t: string)
    requires NoCapitals(t)
    ensures Reads(s, t) <==> AsciiLower(s) == t
  {
    assert forall i :: 0 <= i < |t| ==> t[i] in t;
    if Reads(s, t) {
      forall i | 0 <= i < |s|
        ensures AsciiLower(s)[i] == t[i]
      {
      }
    }
    if AsciiLower(s) == t {
      forall i | 0 <= i < |s|
        ensures s[i] == t[i] || ('A' <= s[i] <= 'Z' && s[i] as int + 32 == t[i] as int)
      {
        assert AsciiLower(s)[i] == Lower(s[i]);
      }
    }
  }

  /** A device of MS-DOS: `con`, `prn`, `aux`, `nul`, or a port with a number from 1 to 9. */
  predicate Device(s: string) {
    || Reads(s, "con") || Reads(s, "prn") || Reads(s, "aux") || Reads(s, "nul")
    || (|s| == 4 && (Reads(s[..3], "com") || Reads(s[..3], "lpt")) && '1' <= s[3] <= '9')
  }

  lemma NumberedIff(l: string, port: string)
    requires |port| == 3
    ensures (|l| == 4 && l[..3] == port && '1' <= l[3] <= '9') <==>
      || l == port + "1" || l == port + "2" || l == port + "3" || l == port + "4" || l == port + "5"
      || l == port + "6" || l == port + "7" || l == port + "8" || l == port + "9"
  {
    if |l| == 4 && l[..3] == port {
      assert l == port + [l[3]];
    }
  }

  lemma PortNames()
    ensures "com" + "1" == "com1" && "com" + "2" == "com2" && "com" + "3" == "com3" && "com" + "4" == "com4" && "com" + "5" == "com5"
    ensures "com" + "6" == "com6" && "com" + "7" == "com7" && "com" + "8" == "com8" && "com" + "9" == "com9"
    ensures "lpt" + "1" == "lpt1" && "lpt" + "2" == "lpt2" && "lpt" + "3" == "lpt3" && "lpt" + "4" == "lpt4" && "lpt" + "5" == "lpt5"
    ensures "lpt" + "6" == "lpt6" && "lpt" + "7" == "lpt7" && "lpt" + "8" == "lpt8" && "lpt" + "9" == "lpt9"
  {
  }

  lemma PortIff(s: string, port: string)
    requires |port| == 3 && NoCapitals(port)
    ensures (|s| == 4 && Reads(s[..3], port) && '1' <= s[3] <= '9') <==>
      (|s| == 4 && AsciiLower(s)[..3] == port && '1' <= AsciiLower(s)[3] <= '9')
  {
    if |s| == 4 {
      ReadsIff(s[..3], port);
      assert AsciiLower(s[..3]) == AsciiLower(s)[..3];
      assert AsciiLower(s)[3] == Lower(s[3]);
    }
  }

  lemma DeviceIff(s: string)
    ensures Device(s) <==> AsciiLower(s) in RESERVED_STEMS
  {
    hide Reads, AsciiLower;
    ReadsIff(s, "con");
    ReadsIff(s, "prn");
    ReadsIff(s, "aux");
    ReadsIff(s, "nul");
    PortIff(s, "com");
    PortIff(s, "lpt");
    NumberedIff(AsciiLower(s), "com");
    NumberedIff(AsciiLower(s), "lpt");
    PortNames();
  }

  /** Names that agents and plugins keep for themselves. */
  predicate AgentName(p: string) {
    || Reads(p, ".claude-plugin") || Reads(p, ".agents") || Reads(p, ".codex") || Reads(p, ".cursor")
    || Reads(p, ".windsurf") || Reads(p, ".mcp") || Reads(p, ".mcp.json")
  }

  lemma AgentNameIff(p: string)
    ensures AgentName(p) <==> AgentReserved(p)
  {
    hide Reads, AsciiLower;
    ReadsIff(p, ".claude-plugin");
    ReadsIff(p, ".agents");
    ReadsIff(p, ".codex");
    ReadsIff(p, ".cursor");
    ReadsIff(p, ".windsurf");
    ReadsIff(p, ".mcp");
    ReadsIff(p, ".mcp.json");
  }

  // ---------------------------------------------------------------- refused paths

  predicate ControlCode(c: char) {
    c as int <= 0x1f || 0x7f <= c as int <= 0x9f
  }

  predicate EndsBadly(s: string) {
    s != "" && (s[|s| - 1] == '.' || s[|s| - 1] == ' ')
  }

  /** The text before the first dot names a device. */
  ghost predicate DeviceStem(p: string) {
    exists n :: PieceAt(p, '.', 0, n) && Device(p[..n])
  }

  /** A piece that no file or directory may have as its name. */
  ghost predicate BadPiece(p: string) {
    || p == ".." || EndsBadly(p)
    || (exists c :: c in p && (c == ':' || c == '<' || c == '>' || c == '\"' || c == '|' || c == '?' || c == '*'))
    || ByteCount(p) > 255 || DeviceStem(p)
  }

  /** The paths that are refused, in the order in which the reasons are looked for. */
  ghost predicate BadPath(path: string) {
    || path == ""
    || (exists c :: c in path && (ControlCode(c) || c == '\\'))
    || |path| + Supplementary(path) > 4096
    || IsPiece(path, '/', "")
    || (|path| >= 2 && ('a' <= path[0] <= 'z' || 'A' <= path[0] <= 'Z') && path[1] == ':')
    || EndsBadly(path)
    || path == "." || "./" <= path
    || (exists p :: IsPiece(path, '/', p) && p != "." && BadPiece(p))
    || (exists p :: IsPiece(path, '/', p) && AgentName(p))
  }

  lemma StemIff(p: string)
    ensures DeviceStem(p) <==> !FreeStem(p)
  {
    hide Device;
    FirstPart(p, '.');
    var n := |Split(p, '.')[0]|;
    DeviceIff(Split(p, '.')[0]);
    if m :| PieceAt(p, '.', 0, m) && Device(p[..m]) {
      PieceEndsOnce(p, '.', 0, m, n);
    }
  }

  lemma BadPieceIff(p: string)
    requires p != ""
    ensures BadPiece(p) <==> !ValidComponent(p)
  {
    hide DeviceStem, FreeStem, Utf8, ByteCount;
    StemIff(p);
    ByteCountIsUtf8(p);
    ReservedCharacters();
  }

  lemma ReservedCharacters()
    ensures forall c :: c in RESERVED_CHARACTERS <==> c == ':' || c == '<' || c == '>' || c == '\"' || c == '|' || c == '?' || c == '*'
  {
    var r := RESERVED_CHARACTERS;
    assert r[0] == ':' && r[1] == '<' && r[2] == '>' && r[3] == '\"' && r[4] == '|' && r[5] == '?' && r[6] == '*';
  }

  lemma LeadingDotIff(path: string)
    ensures LeadsWithDot(path) <==> path == "." || "./" <= path
  {
    FirstPart(path, '/');
    var n := |Split(path, '/')[0]|;
    if path == "." || "./" <= path {
      assert PieceAt(path, '/', 0, 1);
      PieceEndsOnce(path, '/', 0, 1, n);
      assert path[..1] == ".";
    }
  }

  /** A path is accepted exactly when none of the reasons to refuse it holds. */
  lemma PathAcceptedIff(path: string)
    ensures ValidPath(path) <==> !BadPath(path)
  {
    hide BadPiece, ValidComponent, AgentName, AgentReserved, IsPiece, LeadsWithDot, Utf16Length, Supplementary;
    SplitIsPieces(path, '/');
    WithoutDotsSpec(Split(path, '/'));
    LeadingDotIff(path);
    UnitsAreCounted(path);
    forall p: string
      ensures AgentName(p) <==> AgentReserved(p)
      ensures p != "" ==> (BadPiece(p) <==> !ValidComponent(p))
    {
      AgentNameIff(p);
      if p != "" { BadPieceIff(p); }
    }
  }

  // ---------------------------------------------------------------- staying below a directory

  /** Where following the pieces leads from a directory, given by the names on the way to it. */
  function Walk(at: seq<string>, pieces: seq<string>): seq<string> {
    if pieces == [] then at
    else
      var here := Walk(at, pieces[..|pieces| - 1]);
      var p := pieces[|pieces| - 1];
      if p == "." then here
      else if p == ".." then (if here == [] then [] else here[..|here| - 1])
      else here + [p]
  }

  /** The pieces of a path, in order. */
  ghost predicate Spells(pieces: seq<string>, path: string) {
    pieces != [] && (forall p :: p in pieces ==> '/' !in p) && Join(pieces, '/') == path
  }

  lemma {:induction false} WalkStays(at: seq<string>, pieces: seq<string>, n: nat)
    requires n <= |pieces| && ".." !in pieces
    ensures at <= Walk(at, pieces[..n])
    ensures forall k :: 0 <= k < n && pieces[k] != "." ==> |at| < |Walk(at, pieces[..n])|
    decreases n
  {
    if n > 0 {
      WalkStays(at, pieces, n - 1);
      assert pieces[..n][..n - 1] == pieces[..n - 1] && pieces[..n] == pieces[..n - 1] + [pieces[n - 1]];
      assert pieces[n - 1] in pieces;
      var here, p := Walk(at, pieces[..n - 1]), pieces[n - 1];
      assert Walk(at, pieces[..n]) == if p == "." then here else here + [p];
    }
  }

  /** From any directory, no piece of an accepted path leads above it, and the whole leads below it. */
  lemma AcceptedStaysBelow(path: string, pieces: seq<string>, at: seq<string>)
    requires ValidPath(path) && Spells(pieces, path)
    ensures forall n :: 0 <= n <= |pieces| ==> at <= Walk(at, pieces[..n])
    ensures at < Walk(at, pieces)
  {
    hide Walk, ValidComponent, AgentReserved;
    SplitJoin(pieces, '/');
    WithoutDotsSpec(pieces);
    assert ".." !in pieces by {
      if ".." in pieces { assert ".." in WithoutDots(pieces); ParentIsNoComponent(); }
    }
    forall n | 0 <= n <= |pieces|
      ensures at <= Walk(at, pieces[..n])
    {
      WalkStays(at, pieces, n);
    }
    WalkStays(at, pieces, |pieces|);
    assert pieces[..|pieces|] == pieces;
    assert pieces[0] in pieces && pieces[0] != ".";
  }

  lemma ParentIsNoComponent()
    ensures !ValidComponent("..")
  {
  }

  /** The path on disk is where the walk leads. */
  lemma {:induction false} WalkIsWithoutDots(pieces: seq<string>)
    requires ".." !in pieces
    ensures Walk([], pieces) == WithoutDots(pieces)
  {
    if pieces != [] {
      var n := |pieces| - 1;
      WalkIsWithoutDots(pieces[..n]);
      assert pieces == pieces[..n] + [pieces[n]];
      WithoutDotsAppend(pieces[..n], pieces[n]);
    }
  }

  lemma {:induction false} WithoutDotsAppend(parts: seq<string>, p: string)
    ensures WithoutDots(parts + [p]) == WithoutDots(parts) + (if p == "." then [] else [p])
  {
    if parts != [] {
      WithoutDotsAppend(parts[1..], p);
      assert (parts + [p])[1..] == parts[1..] + [p];
    } else {
      assert (parts + [p])[1..] == [];
    }
  }

  /** An accepted path is written where its pieces lead. */
  lemma OnDiskIsWalk(path: string)
    requires ValidPath(path)
    ensures Split(OnDisk(path), '/') == Walk([], Split(path, '/'))
  {
    hide ValidComponent, AgentReserved, Walk;
    var parts := Split(path, '/');
    WithoutDotsSpec(parts);
    SplitPartsAreFree(path, '/');
    assert ".." !in parts by {
      if ".." in parts { assert ".." in WithoutDots(parts); ParentIsNoComponent(); }
    }
    WalkIsWithoutDots(parts);
    assert parts[0] in WithoutDots(parts);
    SplitJoin(WithoutDots(parts), '/');
  }

  /** A skill name is a path of one piece. */
  lemma SkillNameIff(name: string)
    ensures ValidSkillName(name) <==> !BadPath(name) && '/' !in name
  {
    hide ValidPath, BadPath;
    PathAcceptedIff(name);
    if !BadPath(name) { UsualRefusals(name); }
  }

  lemma UsualRefusals(name: string)
    requires !BadPath(name)
    ensures name != "" && name != "." && name != ".." && '\\' !in name
  {
    hide BadPiece, AgentName, IsPiece;
    assert EndsBadly("..");
  }

  // ---------------------------------------------------------------- texts that differ in case only

  /** The same letter, whatever its case. */
  predicate SameLetter(a: char, b: char) {
    || a == b
    || ('A' <= a <= 'Z' && a as int + 32 == b as int)
    || ('A' <= b <= 'Z' && b as int + 32 == a as int)
  }

  predicate SameButCase(a: string, b: string) {
    |a| == |b| && forall i :: 0 <= i < |a| ==> SameLetter(a[i], b[i])
  }

  lemma SameButCaseIff(a: string, b: string)
    ensures SameButCase(a, b) <==> AsciiLower(a) == AsciiLower(b)
  {
    if SameButCase(a, b) {
      forall i | 0 <= i < |a|
        ensures AsciiLower(a)[i] == AsciiLower(b)[i]
      {
        assert SameLetter(a[i], b[i]);
      }
    }
    if AsciiLower(a) == AsciiLower(b) {
      assert |AsciiLower(a)| == |a| && |AsciiLower(b)| == |b|;
      forall i | 0 <= i < |a|
        ensures SameLetter(a[i], b[i])
      {
        assert AsciiLower(a)[i] == Lower(a[i]) && AsciiLower(b)[i] == Lower(b[i]);
      }
    }
  }

  // ---------------------------------------------------------------- empty pieces

  /** An empty piece is a separator at an end, or two in a row. */
  lemma EmptyPieceIff(s: string, sep: char)
    requires s != ""
    ensures IsPiece(s, sep, "") <==>
      s[0] == sep || s[|s| - 1] == sep || exists i :: 0 <= i < |s| - 1 && s[i] == sep && s[i + 1] == sep
  {
    if IsPiece(s, sep, "") {
      var i, j :| PieceAt(s, sep, i, j) && "" == s[i..j];
      assert i == j;
      assert 0 < i < |s| ==> s[i - 1] == sep && s[i - 1 + 1] == sep;
    }
    if s[0] == sep { assert PieceAt(s, sep, 0, 0) && "" == s[0..0]; }
    if s[|s| - 1] == sep { assert PieceAt(s, sep, |s|, |s|) && "" == s[|s|..|s|]; }
    if i :| 0 <= i < |s| - 1 && s[i] == sep && s[i + 1] == sep {
      assert PieceAt(s, sep, i + 1, i + 1) && "" == s[i + 1..i + 1];
    }
  }
}
