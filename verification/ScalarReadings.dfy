/** How values on one line read: plain and double-quoted, with blanks around them and a comment behind. */
module ScalarReadings {
  import opened Options
  import opened Paths
  import opened PathRules
  import opened Scalars

  // ---------------------------------------------------------------- comments

  /** A hash sign that would start a comment: at the start, or behind a blank. */
  predicate HashAt(s: string, i: int) {
    0 <= i < |s| && s[i] == '#' && (i == 0 || IsWhitespace(s[i - 1]))
  }

  predicate QuoteFree(s: string) {
    '\"' !in s && '\'' !in s
  }

  /** What precedes the comment of a text without quotes. */
  lemma {:induction false} CutQuoteFree(s: string, open: bool)
    requires QuoteFree(s)
    ensures
      var n := Cut(s, Outside, open);
      && (n < |s| ==> s[n] == '#' && (if n == 0 then open else IsWhitespace(s[n - 1])))
      && (forall i :: 0 < i < n ==> !HashAt(s, i))
      && (n > 0 ==> !(s[0] == '#' && open))
  {
    hide IsWhitespace;
    if s != "" && !(s[0] == '#' && open) {
      var t := s[1..];
      assert forall c :: c in t ==> c in s;
      CutQuoteFree(t, IsWhitespace(s[0]));
      var n, m := Cut(s, Outside, open), Cut(t, Outside, IsWhitespace(s[0]));
      assert s[0] in s && n == m + 1;
      forall i | 0 < i < n
        ensures !HashAt(s, i)
      {
        assert s[i] == t[i - 1];
        if i > 1 { assert s[i - 1] == t[i - 2] && !HashAt(t, i - 1); }
      }
      if n < |s| {
        assert s[n] == t[m];
        if m > 0 { assert s[n - 1] == t[m - 1]; }
      }
    }
  }

  /** Without quotes a comment starts at the first hash sign that can start one. */
  lemma CommentIsCut(raw: string)
    requires QuoteFree(raw)
    ensures StripComment(raw) <= raw
    ensures forall i :: HashAt(raw, i) ==> i >= |StripComment(raw)|
    ensures |StripComment(raw)| < |raw| ==> HashAt(raw, |StripComment(raw)|)
  {
    hide IsWhitespace;
    CutQuoteFree(raw, true);
  }

  /** Text that starts no comment is passed. */
  lemma {:induction false} CutPasses(text: string, tail: string, open: bool)
    requires text != "" && QuoteFree(text) && !(text[0] == '#' && open) && forall i :: 0 < i < |text| ==> !HashAt(text, i)
    ensures Cut(text + tail, Outside, open) == |text| + Cut(tail, Outside, IsWhitespace(text[|text| - 1]))
  {
    hide IsWhitespace;
    var all := text + tail;
    var t := text[1..];
    assert text[0] in text && all[0] == text[0] && all[1..] == t + tail;
    if t == "" {
      assert t + tail == tail;
    } else {
      assert forall c :: c in t ==> c in text;
      assert t[0] == text[1] && !HashAt(text, 1);
      forall i | 0 < i < |t|
        ensures !HashAt(t, i)
      {
        assert t[i] == text[i + 1] && t[i - 1] == text[i] && !HashAt(text, i + 1);
      }
      CutPasses(t, tail, IsWhitespace(text[0]));
    }
  }

  // ---------------------------------------------------------------- plain values

  /** A value without quotes and comments in it, and no blanks at its ends. */
  ghost predicate PlainValue(text: string) {
    && text != "" && QuoteFree(text)
    && !IsWhitespace(text[0]) && !IsWhitespace(text[|text| - 1])
    && forall i :: 0 <= i < |text| ==> !HashAt(text, i)
  }

  /** What a plain value means: no list, map, tag, anchor, alias or null; a boolean, a number or a text. */
  ghost function PlainMeaning(lex: Lexicon, text: string): Option<Scalar>
    requires text != ""
  {
    if text[0] == '[' || text[0] == '{' || text[0] == '!' || text[0] == '&' || text[0] == '*' then None
    else if exists c :: c in text && ControlCode(c) then None
    else if |text| > 16_384 then None
    else if Reads(text, "null") || text == "~" then None
    else if Reads(text, "true") || Reads(text, "false") then Some(Boolean)
    else
      match lex.kind(text)
      case NonFinite => None
      case Finite => Some(Number)
      case Plain => Some(Text(text))
  }

  lemma ControlIff(c: char)
    ensures IsControl(c) <==> ControlCode(c)
  {
  }

  lemma PlainTextIs(lex: Lexicon, text: string)
    requires text != "" && text[0] != '\"' && text[0] != '\''
    ensures StartsWithAny(text, "[{!&*") <==> text[0] == '[' || text[0] == '{' || text[0] == '!' || text[0] == '&' || text[0] == '*'
    ensures Unquoted(lex, text) == Some((text, false))
    ensures (AsciiLower(text) == "null" || AsciiLower(text) == "~") <==> Reads(text, "null") || text == "~"
    ensures (AsciiLower(text) == "true" || AsciiLower(text) == "false") <==> Reads(text, "true") || Reads(text, "false")
  {
    var s := "[{!&*";
    assert s[0] == '[' && s[1] == '{' && s[2] == '!' && s[3] == '&' && s[4] == '*';
    ReadsIff(text, "null");
    ReadsIff(text, "true");
    ReadsIff(text, "false");
    ReadsIff(text, "~");
    assert Reads(text, "~") <==> text == "~";
  }

  lemma StripAround(lead: string, text: string, gap: string, comment: string)
    requires Blank(lead) && Trailer(gap, comment) && PlainValue(text)
    ensures StripComment(lead + text + gap + comment) == lead + text + gap
  {
    hide IsWhitespace;
    var tail := gap + comment;
    var raw := lead + text + gap + comment;
    assert raw == lead + (text + tail);
    CutBlank(lead, text + tail);
    assert text[0] != '#' by { assert !HashAt(text, 0); }
    CutPasses(text, tail, true);
    CutTrailer(gap, comment, IsWhitespace(text[|text| - 1]));
    assert raw[..|lead| + |text| + |gap|] == lead + text + gap;
  }

  /** A plain value, with blanks around it and a comment behind it, has its meaning. */
  lemma PlainReads(lex: Lexicon, lead: string, text: string, gap: string, comment: string)
    requires Blank(lead) && Trailer(gap, comment) && PlainValue(text)
    ensures ParseScalar(lex, lead + text + gap + comment) == PlainMeaning(lex, text)
  {
    hide StripComment, Trim, IsWhitespace, Unquoted, StartsWithAny, AsciiLower, Reads, IsControl, ControlCode;
    StripAround(lead, text, gap, comment);
    TrimAround(lead, text, gap);
    assert text[0] in text;
    PlainTextIs(lex, text);
    forall c
      ensures IsControl(c) <==> ControlCode(c)
    {
      ControlIff(c);
    }
  }

  // ---------------------------------------------------------------- double quotes

  /** The inside of double quotes: ordinary characters, and escapes of two. */
  ghost predicate Escaped(body: string)
    decreases |body|
  {
    if body == "" then true
    else if body[0] == '\\' then |body| >= 2 && Escaped(body[2..])
    else body[0] != '\"' && Escaped(body[1..])
  }

  lemma {:induction false} CutEscaped(body: string, tail: string, open: bool)
    requires Escaped(body)
    ensures Cut(body + ['\"'] + tail, Double, open) == |body| + 1 + Cut(tail, Outside, false)
    decreases |body|
  {
    hide IsWhitespace;
    DoubleQuoteIsNoBlank();
    var all := body + ['\"'] + tail;
    if body == "" {
      assert all == ['\"'] + tail && all[1..] == tail;
    } else if body[0] == '\\' {
      assert all[2..] == body[2..] + ['\"'] + tail;
      CutEscaped(body[2..], tail, false);
    } else {
      assert all[1..] == body[1..] + ['\"'] + tail;
      CutEscaped(body[1..], tail, IsWhitespace(body[0]));
    }
  }

  lemma DoubleQuoteIsNoBlank()
    ensures !IsWhitespace('\"')
  {
  }

  function DoubleQuoted(body: string): string {
    ['\"'] + body + ['\"']
  }

  lemma StripDoubleQuoted(lead: string, body: string, gap: string, comment: string)
    requires Blank(lead) && Trailer(gap, comment) && Escaped(body)
    ensures StripComment(lead + DoubleQuoted(body) + gap + comment) == lead + DoubleQuoted(body) + gap
  {
    hide IsWhitespace;
    var q, tail := DoubleQuoted(body), gap + comment;
    var raw := lead + q + gap + comment;
    assert raw == lead + (q + tail);
    CutBlank(lead, q + tail);
    assert (q + tail)[0] == '\"' && (q + tail)[1..] == body + ['\"'] + tail;
    DoubleQuoteIsNoBlank();
    CutEscaped(body, tail, false);
    CutTrailer(gap, comment, false);
    assert raw[..|lead| + |q| + |gap|] == lead + q + gap;
  }

  /** A double-quoted value reads as what the JSON string between the quotes says, hash signs and all. */
  lemma DoubleQuotedReads(lex: Lexicon, lead: string, body: string, gap: string, comment: string)
    requires Blank(lead) && Trailer(gap, comment) && Escaped(body)
    ensures ParseScalar(lex, lead + DoubleQuoted(body) + gap + comment) ==
      match lex.unquote(DoubleQuoted(body))
      case None => None
      case Some(text) => if (exists c :: c in text && ControlCode(c)) || |text| > 16_384 then None else Some(Text(text))
  {
    hide StripComment, Trim, IsWhitespace, IsControl, ControlCode;
    var q := DoubleQuoted(body);
    StripDoubleQuoted(lead, body, gap, comment);
    DoubleQuoteIsNoBlank();
    assert q[0] == '\"' && q[|q| - 1] == '\"' && |q| >= 2;
    TrimAround(lead, q, gap);
    var s := "[{!&*";
    assert s[0] == '[' && s[1] == '{' && s[2] == '!' && s[3] == '&' && s[4] == '*';
    forall c
      ensures IsControl(c) <==> ControlCode(c)
    {
      ControlIff(c);
    }
  }

  /** Nothing but blanks and a comment is no value. */
  lemma NothingIsRefused(lex: Lexicon, lead: string, comment: string)
    requires Blank(lead) && (comment == "" || comment[0] == '#')
    ensures ParseScalar(lex, lead + comment) == None
  {
    hide IsWhitespace;
    CutTrailer(lead, comment, true);
    var raw := lead + comment;
    assert StripComment(raw) == lead by { assert raw[..|lead|] == lead; }
    TrimStartBlank(lead, "");
    assert lead + "" == lead;
  }
}
