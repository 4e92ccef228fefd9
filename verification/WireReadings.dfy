/** The wire form of a bundle, read by readers of JSON and base64: the parser that decoding relies on exists. */
module WireReadings {
  import opened Options
  import opened Order
  import opened Digest
  import opened Paths
  import opened SkillTree
  import opened Json
  import opened Readers
  import opened BundleFormat

  // ---------------------------------------------------------------- base64

  /** The six bits of a digit. */
  function Sextet(c: char): (r: Option<nat>)
    ensures r.Some? ==> r.value < 64
  {
    if 'A' <= c <= 'Z' then Some(c as int - 'A' as int)
    else if 'a' <= c <= 'z' then Some(26 + c as int - 'a' as int)
    else if '0' <= c <= '9' then Some(52 + c as int - '0' as int)
    else if c == '+' then Some(62)
    else if c == '/' then Some(63)
    else None
  }

  /** The bytes of four digits, the last two of which may be padding. */
  function Quantum(s: string): Option<Bytes>
    requires |s| == 4
  {
    var a, b, c, d := Sextet(s[0]), Sextet(s[1]), Sextet(s[2]), Sextet(s[3]);
    if a.None? || b.None? then None
    else
      var high := 4 * a.value + b.value / 16;
      if s[2] == '=' && s[3] == '=' then Some([high])
      else if c.None? then None
      else
        var middle := b.value % 16 * 16 + c.value / 4;
        if s[3] == '=' then Some([high, middle])
        else if d.None? then None
        else Some([high, middle, c.value % 4 * 64 + d.value])
  }

  /** Whole quanta; only the last may be padded. */
  function Decode64(s: string): Option<Bytes>
    decreases |s|
  {
    if s == "" then Some([])
    else if |s| < 4 then None
    else
      match Quantum(s[..4])
      case None => None
      case Some(x) =>
        if |x| < 3 && |s| > 4 then None
        else (match Decode64(s[4..]) case None => None case Some(y) => Some(x + y))
  }

  lemma DigitReads(n: int)
    requires 0 <= n < 64
    ensures Sextet(Digit64(n)) == Some(n) && Digit64(n) != '='
  {
  }

  lemma OneReads(a: Byte)
    ensures Quantum([Digit64(a / 4), Digit64(a % 4 * 16), '=', '=']) == Some([a])
  {
    hide Sextet, Digit64;
    DigitReads(a / 4);
    DigitReads(a % 4 * 16);
  }

  lemma TwoRead(a: Byte, b: Byte)
    ensures Quantum([Digit64(a / 4), Digit64(a % 4 * 16 + b / 16), Digit64(b % 16 * 4), '=']) == Some([a, b])
  {
    hide Sextet, Digit64;
    DigitReads(a / 4);
    DigitReads(a % 4 * 16 + b / 16);
    DigitReads(b % 16 * 4);
  }

  lemma ThreeRead(a: Byte, b: Byte, c: Byte)
    ensures Quantum([Digit64(a / 4), Digit64(a % 4 * 16 + b / 16), Digit64(b % 16 * 4 + c / 64), Digit64(c % 64)]) == Some([a, b, c])
  {
    hide Sextet, Digit64;
    DigitReads(a / 4);
    DigitReads(a % 4 * 16 + b / 16);
    DigitReads(b % 16 * 4 + c / 64);
    DigitReads(c % 64);
    assert 4 * (a / 4) + (a % 4 * 16 + b / 16) / 16 == a;
    assert (a % 4 * 16 + b / 16) % 16 * 16 + (b % 16 * 4 + c / 64) / 4 == b;
    assert (b % 16 * 4 + c / 64) % 4 * 64 + c % 64 == c;
  }

  /** Encoded bytes read back. */
  lemma {:induction false} EncodedReadsBack(b: Bytes)
    ensures Decode64(Encode64(b)) == Some(b)
  {
    hide Quantum, Digit64;
    var s := Encode64(b);
    if |b| == 1 {
      OneReads(b[0]);
      assert s[..4] == s && s[4..] == "" && b == [b[0]] && [b[0]] + [] == b;
    } else if |b| == 2 {
      TwoRead(b[0], b[1]);
      assert s[..4] == s && s[4..] == "" && b == [b[0], b[1]] && [b[0], b[1]] + [] == b;
    } else if |b| >= 3 {
      ThreeRead(b[0], b[1], b[2]);
      EncodedReadsBack(b[3..]);
      assert s[4..] == Encode64(b[3..]);
      assert s[..4] == [Digit64(b[0] / 4), Digit64(b[0] % 4 * 16 + b[1] / 16), Digit64(b[1] % 16 * 4 + b[2] / 64), Digit64(b[2] % 64)];
      assert b == [b[0], b[1], b[2]] + b[3..];
    }
  }

  // ---------------------------------------------------------------- bundles

  /** A file: its path, its content in base64, and possibly whether it is executable. */
  function FileOf(v: Json): Option<BundleFile> {
    if !v.Obj? || !(2 <= |v.fields| <= 3) then None
    else
      var f := v.fields;
      if f[0].key != "path" || !f[0].value.Str? || f[1].key != "content" || !f[1].value.Str? then None
      else if |f| == 3 && (f[2].key != "executable" || !f[2].value.Bool?) then None
      else
        match Decode64(f[1].value.s)
        case None => None
        case Some(bytes) => Some(BundleFile(f[0].value.s, bytes, if |f| == 3 then Some(f[2].value.b) else None))
  }

  function FilesOf(items: seq<Json>): Option<Bundle> {
    if items == [] then Some([])
    else
      var f, rest := FileOf(items[0]), FilesOf(items[1..]);
      if f.None? || rest.None? then None else Some([f.value] + rest.value)
  }

  function BundleOf(v: Json): Option<Bundle> {
    if !v.Obj? || |v.fields| != 2 then None
    else if v.fields[0] != Field("format", Str("pskills-bundle-v1")) || v.fields[1].key != "files" || !v.fields[1].value.Arr? then None
    else FilesOf(v.fields[1].value.items)
  }

  /** A parser of bundle texts. */
  function ReadBundle(text: string): Option<Bundle> {
    match ReadJson(text)
    case None => None
    case Some(v) => BundleOf(v)
  }

  lemma FileReads(f: BundleFile)
    ensures FileOf(FileJson(f)) == Some(f)
  {
    hide Decode64, Encode64;
    EncodedReadsBack(f.content);
    var x := FileJson(f).fields;
    assert x[0] == Field("path", Str(f.path)) && x[1] == Field("content", Str(Encode64(f.content)));
    if f.executable.Some? { assert x[2] == Field("executable", Bool(f.executable.value)); }
  }

  lemma {:induction false} FilesRead(b: Bundle, items: seq<Json>)
    requires |items| == |b| && forall i :: 0 <= i < |b| ==> items[i] == FileJson(b[i])
    ensures FilesOf(items) == Some(b)
  {
    hide FileOf, FileJson;
    if b != [] {
      FileReads(b[0]);
      FilesRead(b[1..], items[1..]);
      assert b == [b[0]] + b[1..];
    }
  }

  lemma BundleReads(b: Bundle)
    ensures ReadBundle(WireText(b)) == Some(b)
  {
    hide ReadJson, Print, FileJson, FilesOf;
    BundleJsonWellFormed(b);
    PrintedReadsBack(BundleJson(b));
    var v := BundleJson(b);
    FilesRead(b, v.fields[1].value.items);
  }

  /** The wire text of a bundle is JSON and base64 for exactly its files: this parser is one that decoding can use. */
  lemma WireReadsBack()
    ensures ReadsBack(ReadBundle)
  {
    hide ReadBundle, WireText;
    forall b: Bundle
      ensures ReadBundle(WireText(b)) == Some(b)
    {
      BundleReads(b);
    }
  }

  /** With it, decoding the canonical text of any acceptable bundle gives its normalised files in path order. */
  lemma CanonicalDecodes(b: Bundle, nfc: string -> string)
    requires Canonical(b, nfc).Some?
    ensures Decode(Canonical(b, nfc).value, ReadBundle, nfc) == Some(SortBy(Normalized(b, nfc), PathKey))
  {
    hide ReadBundle, WireText;
    WireReadsBack();
    DecodeCanonical(b, ReadBundle, nfc);
  }
}
