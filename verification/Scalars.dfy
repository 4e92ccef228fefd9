/** Single-line frontmatter values: comments, quotes and plain scalars. */
module Scalars {
  import opened Options
  import opened Paths

  const MAX_FRONTMATTER_VALUE_CHARS := 16_384

  datatype Scalar = Text(value: string) | Number | Boolean

  /** How a plain value reads as a number. */
  datatype PlainKind = Plain | Finite | NonFinite

  /** Lexical rules taken from elsewhere: JSON strings, number syntax, and refused field names. */
  datatype Lexicon = Lexicon(unquote: string -> Option<string>, kind: string -> PlainKind, dangerous: string -> bool)

  // ---------------------------------------------------------------- characters

  predicate IsWhitespace(c: char) {
    var n := c as int;
    || 9 <= n <= 13 || n == 0x20 || n == 0x85 || n == 0xA0 || n == 0x1680 || 0x2000 <= n <= 0x200A
    || n == 0x2028 || n == 0x2029 || n == 0x202F || n == 0x205F || n == 0x3000
  }

  predicate Blank(s: string) {
    forall i :: 0 <= i < |s| ==> IsWhitespace(s[i])
  }

  function TrimStart(s: string): string {
    if s != "" && IsWhitespace(s[0]) then TrimStart(s[1..]) else s
  }

  function TrimEnd(s: string): string {
    if s != "" && IsWhitespace(s[|s| - 1]) then TrimEnd(s[..|s| - 1]) else s
  }

  function Trim(s: string): string {
    TrimEnd(TrimStart(s))
  }

  function SplitOnce(s: string, sep: char): Option<(string, string)> {
    if s == "" then None
    else if s[0] == sep then Some(("", s[1..]))
    else
      match SplitOnce(s[1..], sep)
      case Some((key, value)) => Some(([s[0]] + key, value))
      case None => None
  }

  // ---------------------------------------------------------------- comments

  datatype Quoting = Outside | Single | Double

  /** How much of `rest` precedes a comment; `open` says that a `#` here would start one. */
  function Cut(rest: string, q: Quoting, open: bool): (n: nat)
    ensures n <= |rest|
  {
    if rest == "" then 0
    else
      var c := rest[0];
      match q
      case Double =>
        if c == '\\' then (if |rest| == 1 then 1 else 2 + Cut(rest[2..], Double, false))
        else 1 + Cut(rest[1..], if c == '\"' then Outside else Double, IsWhitespace(c))
      case Single =>
        if c == '\'' && |rest| > 1 && rest[1] == '\'' then 2 + Cut(rest[2..], Single, false)
        else 1 + Cut(rest[1..], if c == '\'' then Outside else Single, IsWhitespace(c))
      case Outside =>
        if c == '#' && open then 0
        else
          var next := if c == '\"' then Double else if c == '\'' then Single else Outside;
          1 + Cut(rest[1..], next, IsWhitespace(c))
  }

  function StripComment(raw: string): string {
    raw[..Cut(raw, Outside, true)]
  }

  predicate Opens(raw: string, i: nat)
    requires i <= |raw|
  {
    i == 0 || IsWhitespace(raw[i - 1])
  }

  /** `strip_yaml_comment`. */
  method StripYamlComment(raw: string) returns (r: string)
    ensures r == StripComment(raw)
  {
    hide IsWhitespace;
    var i, q := 0, Outside;
    while i < |raw|
      invariant 0 <= i <= |raw|
      invariant i + Cut(raw[i..], q, Opens(raw, i)) == Cut(raw, Outside, true)
    {
      var c := raw[i];
      ghost var rest := raw[i..];
      assert rest[1..] == raw[i + 1..];
      assert i + 1 < |raw| ==> rest[1] == raw[i + 1] && rest[2..] == raw[i + 2..];
      match q {
        case Double =>
          if c == '\\' {
            i := if i + 1 < |raw| then i + 2 else i + 1;
          } else {
            if c == '\"' { q := Outside; }
            i := i + 1;
          }
        case Single =>
          if c == '\'' {
            if i + 1 < |raw| && raw[i + 1] == '\'' {
              i := i + 2;
            } else {
              q := Outside;
              i := i + 1;
            }
          } else {
            i := i + 1;
          }
        case Outside =>
          if c == '#' && (i == 0 || IsWhitespace(raw[i - 1])) {
            return raw[..i];
          }
          if c == '\"' { q := Double; } else if c == '\'' { q := Single; }
          i := i + 1;
      }
    }
    assert raw[i..] == "";
    return raw;
  }

  // ---------------------------------------------------------------- scalars

  function Undouble(s: string): string {
    if s == "" then ""
    else if |s| >= 2 && s[0] == '\'' && s[1] == '\'' then ['\''] + Undouble(s[2..])
    else [s[0]] + Undouble(s[1..])
  }

  predicate StartsWithAny(s: string, chars: string) {
    s != "" && s[0] in chars
  }

  /** The text of a trimmed value and whether it was quoted. */
  function Unquoted(lex: Lexicon, value: string): Option<(string, bool)>
    requires value != ""
  {
    if value[0] == '\"' then
      if value[|value| - 1] != '\"' || |value| < 2 then None
      else (match lex.unquote(value) case Some(s) => Some((s, true)) case None => None)
    else if value[0] == '\'' then
      if value[|value| - 1] != '\'' || |value| < 2 then None
      else Some((Undouble(value[1..|value| - 1]), true))
    else Some((value, false))
  }

  /** `parse_frontmatter_scalar`. */
  function ParseScalar(lex: Lexicon, raw: string): Option<Scalar> {
    var value := Trim(StripComment(raw));
    if value == "" || StartsWithAny(value, "[{!&*") then None
    else
      match Unquoted(lex, value)
      case None => None
      case Some((text, quoted)) =>
        if (exists c :: c in text && IsControl(c)) || |text| > MAX_FRONTMATTER_VALUE_CHARS then None
        else if quoted then Some(Text(text))
        else if AsciiLower(text) == "null" || AsciiLower(text) == "~" then None
        else if AsciiLower(text) == "true" || AsciiLower(text) == "false" then Some(Boolean)
        else
          match lex.kind(text)
          case NonFinite => None
          case Finite => Some(Number)
          case Plain => Some(Text(text))
  }

  // ---------------------------------------------------------------- single quotes round trip

  function Doubled(s: string): string {
    if s == "" then ""
    else (if s[0] == '\'' then ['\'', '\''] else [s[0]]) + Doubled(s[1..])
  }

  function SingleQuoted(s: string): string {
    ['\''] + Doubled(s) + ['\'']
  }

  lemma {:induction false} UndoubleDoubled(s: string)
    ensures Undouble(Doubled(s)) == s
  {
    if s != "" {
      UndoubleDoubled(s[1..]);
      var d := Doubled(s);
      if s[0] == '\'' {
        assert d[2..] == Doubled(s[1..]);
      } else {
        assert d[1..] == Doubled(s[1..]);
      }
      assert s == [s[0]] + s[1..];
    }
  }

  lemma {:induction false} CutBlank(lead: string, x: string)
    requires Blank(lead)
    ensures Cut(lead + x, Outside, true) == |lead| + Cut(x, Outside, true)
  {
    if lead == "" {
      assert lead + x == x;
    } else {
      assert (lead + x)[1..] == lead[1..] + x;
      assert (lead + x)[0] == lead[0] && IsWhitespace(lead[0]);
      CutBlank(lead[1..], x);
    }
  }

  /** Scanning doubled text inside single quotes reaches exactly the closing quote. */
  lemma {:induction false} CutDoubled(s: string, tail: string, open: bool)
    requires tail == "" || tail[0] != '\''
    ensures Cut(Doubled(s) + ['\''] + tail, Single, open) == |Doubled(s)| + 1 + Cut(tail, Outside, false)
  {
    hide IsWhitespace;
    QuoteIsNotBlank();
    var all := Doubled(s) + ['\''] + tail;
    if s == "" {
      assert all == ['\''] + tail;
      assert all[1..] == tail;
    } else if s[0] == '\'' {
      assert all[0] == '\'' && all[1] == '\'' && all[2..] == Doubled(s[1..]) + ['\''] + tail;
      CutDoubled(s[1..], tail, false);
    } else {
      assert all[0] == s[0] && all[1..] == Doubled(s[1..]) + ['\''] + tail;
      CutDoubled(s[1..], tail, IsWhitespace(s[0]));
    }
  }

  /** Blanks, then optionally a comment set off by at least one blank. */
  ghost predicate Trailer(gap: string, comment: string) {
    Blank(gap) && (comment == "" || (comment[0] == '#' && gap != ""))
  }

  lemma {:induction false} CutTrailer(gap: string, comment: string, open: bool)
    requires Blank(gap) && (comment == "" || (comment[0] == '#' && (open || gap != "")))
    ensures Cut(gap + comment, Outside, open) == |gap|
  {
    var all := gap + comment;
    if gap == "" {
      assert all == comment;
    } else {
      assert IsWhitespace(gap[0]) && all[0] == gap[0];
      assert all[1..] == gap[1..] + comment;
      CutTrailer(gap[1..], comment, true);
    }
  }

  lemma {:induction false} TrimStartBlank(lead: string, x: string)
    requires Blank(lead) && (x == "" || !IsWhitespace(x[0]))
    ensures TrimStart(lead + x) == x
  {
    if lead == "" {
      assert lead + x == x;
    } else {
      assert IsWhitespace(lead[0]);
      assert (lead + x)[1..] == lead[1..] + x;
      TrimStartBlank(lead[1..], x);
    }
  }

  lemma {:induction false} TrimEndBlank(x: string, gap: string)
    requires Blank(gap) && (x == "" || !IsWhitespace(x[|x| - 1]))
    ensures TrimEnd(x + gap) == x
  {
    if gap == "" {
      assert x + gap == x;
    } else {
      var all := x + gap;
      assert all[|all| - 1] == gap[|gap| - 1] && IsWhitespace(gap[|gap| - 1]);
      assert all[..|all| - 1] == x + gap[..|gap| - 1];
      TrimEndBlank(x, gap[..|gap| - 1]);
    }
  }

  lemma TrimAround(lead: string, x: string, gap: string)
    requires Blank(lead) && Blank(gap)
    requires x != "" && !IsWhitespace(x[0]) && !IsWhitespace(x[|x| - 1])
    ensures Trim(lead + x + gap) == x
  {
    assert lead + x + gap == lead + (x + gap);
    TrimStartBlank(lead, x + gap);
    TrimEndBlank(x, gap);
  }

  lemma StripQuoted(lead: string, s: string, gap: string, comment: string)
    requires Blank(lead) && Trailer(gap, comment)
    ensures StripComment(lead + SingleQuoted(s) + gap + comment) == lead + SingleQuoted(s) + gap
  {
    var tail := gap + comment;
    var q := SingleQuoted(s) + tail;
    var raw := lead + SingleQuoted(s) + gap + comment;
    assert raw == lead + q;
    CutBlank(lead, q);
    assert q[1..] == Doubled(s) + ['\''] + tail;
    assert tail == "" || tail[0] != '\'' by {
      if gap != "" { assert IsWhitespace(gap[0]) && tail[0] == gap[0]; }
    }
    CutDoubled(s, tail, false);
    CutTrailer(gap, comment, false);
    assert Cut(q, Outside, true) == 1 + Cut(q[1..], Single, false);
    assert raw[..|lead| + |SingleQuoted(s)| + |gap|] == lead + SingleQuoted(s) + gap;
  }

  /**
   Any control-free text within the bound, single-quoted by doubling its quotes, reads back as
   itself, also with blanks around it and a comment behind it.
   */
  lemma SingleQuotedReadsBack(lex: Lexicon, lead: string, s: string, gap: string, comment: string)
    requires Blank(lead) && Trailer(gap, comment)
    requires (forall c :: c in s ==> !IsControl(c)) && |s| <= MAX_FRONTMATTER_VALUE_CHARS
    ensures ParseScalar(lex, lead + SingleQuoted(s) + gap + comment) == Some(Text(s))
  {
    hide StripComment, Trim, IsWhitespace;
    var q := SingleQuoted(s);
    StripQuoted(lead, s, gap, comment);
    assert !IsWhitespace('\'') by { QuoteIsNotBlank(); }
    TrimAround(lead, q, gap);
    assert q[1..|q| - 1] == Doubled(s);
    UndoubleDoubled(s);
    assert q[0] == '\'' && q[|q| - 1] == '\'' && |q| >= 2;
    assert Unquoted(lex, q) == Some((s, true));
  }

  lemma QuoteIsNotBlank()
    ensures !IsWhitespace('\'')
  {
  }
}
