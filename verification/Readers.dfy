/**
 Readers for the two notations that the printers write: JSON, as RFC 8259 has it but without blanks, and
 base64, as section 4 of RFC 4648 has it. What is printed reads back as what it was printed from.
 */
module Readers {
  import opened Options
  import opened Digest
  import opened Json

  // ---------------------------------------------------------------- strings

  function HexValue(c: char): Option<nat> {
    if '0' <= c <= '9' then Some(c as int - 48)
    else if 'a' <= c <= 'f' then Some(c as int - 87)
    else if 'A' <= c <= 'F' then Some(c as int - 55)
    else None
  }

  /** The character that two escaped characters stand for. */
  function Unescaped(c: char): Option<char> {
    if c == '\"' || c == '\\' || c == '/' then Some(c)
    else if c == 'b' then Some(8 as char)
    else if c == 'f' then Some(12 as char)
    else if c == 'n' then Some(10 as char)
    else if c == 'r' then Some(13 as char)
    else if c == 't' then Some(9 as char)
    else None
  }

  /** Four hexadecimal digits that name a character, surrogates aside. */
  function Code(s: string): Option<char>
    requires |s| >= 4
  {
    var a, b, c, d := HexValue(s[0]), HexValue(s[1]), HexValue(s[2]), HexValue(s[3]);
    if a.None? || b.None? || c.None? || d.None? then None
    else
      var n := 4096 * a.value + 256 * b.value + 16 * c.value + d.value;
      if n < 0xD800 || 0xE000 <= n < 0x1_0000 then Some(n as char) else None
  }

  datatype Rest<T> = Rest(value: T, text: string)

  /** The string behind an opening quote. */
  function ReadString(s: string): (r: Option<Rest<string>>)
    ensures r.Some? ==> |r.value.text| < |s|
    decreases |s|
  {
    if s == "" || s[0] as int < 0x20 then None
    else if s[0] == '\"' then Some(Rest("", s[1..]))
    else if s[0] != '\\' then Prefixed(Some(s[0]), ReadString(s[1..]))
    else if |s| < 2 then None
    else if s[1] == 'u' then (if |s| < 6 then None else Prefixed(Code(s[2..]), ReadString(s[6..])))
    else Prefixed(Unescaped(s[1]), ReadString(s[2..]))
  }

  function Prefixed(c: Option<char>, r: Option<Rest<string>>): (t: Option<Rest<string>>)
    ensures t.Some? ==> r.Some? && t.value.text == r.value.text
  {
    if c.None? || r.None? then None else Some(Rest([c.value] + r.value.value, r.value.text))
  }

  // ---------------------------------------------------------------- values

  /** How far a number reaches. */
  function NumberEnd(s: string): (n: nat)
    ensures n <= |s|
  {
    if s != "" && NumberChar(s[0]) then 1 + NumberEnd(s[1..]) else 0
  }

  function ReadValue(s: string): (r: Option<Rest<Json>>)
    ensures r.Some? ==> |r.value.text| < |s|
    decreases |s|, 2
  {
    if s == "" then None
    else if "null" <= s then Some(Rest(Null, s[4..]))
    else if "true" <= s then Some(Rest(Bool(true), s[4..]))
    else if "false" <= s then Some(Rest(Bool(false), s[5..]))
    else if s[0] == '\"' then
      (match ReadString(s[1..]) case None => None case Some(r) => Some(Rest(Str(r.value), r.text)))
    else if s[0] == '[' then
      if "[]" <= s then Some(Rest(Arr([]), s[2..]))
      else (match ReadItems(s[1..]) case None => None case Some(r) => Some(Rest(Arr(r.value), r.text)))
    else if s[0] == '{' then
      if "{}" <= s then Some(Rest(Obj([]), s[2..]))
      else (match ReadFields(s[1..]) case None => None case Some(r) => Some(Rest(Obj(r.value), r.text)))
    else if NumberEnd(s) > 0 then Some(Rest(Num(s[..NumberEnd(s)]), s[NumberEnd(s)..]))
    else None
  }

  /** Values between commas, up to the closing bracket. */
  function ReadItems(s: string): (r: Option<Rest<seq<Json>>>)
    ensures r.Some? ==> |r.value.text| < |s|
    decreases |s|, 3
  {
    match ReadValue(s)
    case None => None
    case Some(v) =>
      if v.text == "" then None
      else if v.text[0] == ']' then Some(Rest([v.value], v.text[1..]))
      else if v.text[0] != ',' then None
      else
        match ReadItems(v.text[1..])
        case None => None
        case Some(t) => Some(Rest([v.value] + t.value, t.text))
  }

  /** A quoted key, a colon and a value. */
  function ReadField(s: string): (r: Option<Rest<Field>>)
    ensures r.Some? ==> |r.value.text| < |s|
    decreases |s|, 0
  {
    if s == "" || s[0] != '\"' then None
    else
      match ReadString(s[1..])
      case None => None
      case Some(k) =>
        if k.text == "" || k.text[0] != ':' then None
        else (match ReadValue(k.text[1..]) case None => None case Some(v) => Some(Rest(Field(k.value, v.value), v.text)))
  }

  function ReadFields(s: string): (r: Option<Rest<seq<Field>>>)
    ensures r.Some? ==> |r.value.text| < |s|
    decreases |s|, 1
  {
    match ReadField(s)
    case None => None
    case Some(f) =>
      if f.text == "" then None
      else if f.text[0] == '}' then Some(Rest([f.value], f.text[1..]))
      else if f.text[0] != ',' then None
      else
        match ReadFields(f.text[1..])
        case None => None
        case Some(t) => Some(Rest([f.value] + t.value, t.text))
  }

  /** A whole text. */
  function ReadJson(s: string): Option<Json> {
    match ReadValue(s)
    case None => None
    case Some(r) => if r.text == "" then Some(r.value) else None
  }

  // ---------------------------------------------------------------- printed values read back

  lemma OrdinaryReads(s: string)
    requires s != "" && s[0] as int >= 0x20 && s[0] != '\"' && s[0] != '\\'
    ensures ReadString(s) == Prefixed(Some(s[0]), ReadString(s[1..]))
  {
  }

  lemma ShortReads(s: string)
    requires |s| >= 2 && s[0] == '\\' && s[1] != 'u'
    ensures ReadString(s) == Prefixed(Unescaped(s[1]), ReadString(s[2..]))
  {
  }

  lemma CodeReads(s: string)
    requires |s| >= 6 && s[0] == '\\' && s[1] == 'u'
    ensures ReadString(s) == Prefixed(Code(s[2..]), ReadString(s[6..]))
  {
  }

  lemma EscapeReads(c: char, rest: string)
    ensures ReadString(Escape(c) + rest) == Prefixed(Some(c), ReadString(rest))
  {
    hide ReadString, HexChar, HexValue;
    var e := Escape(c);
    var s := e + rest;
    assert s[|e|..] == rest && s[0] == e[0];
    if |e| == 1 {
      OrdinaryReads(s);
    } else if |e| == 2 {
      assert s[1] == e[1];
      ShortReads(s);
    } else {
      var n := c as int;
      assert s[1] == e[1];
      assert s[2..][0] == '0' && s[2..][1] == '0' && s[2..][2] == e[4] && s[2..][3] == e[5];
      CodeReads(s);
      HexReads(0);
      HexReads(n / 16);
      HexReads(n % 16);
      ZeroIsHex();
      CodeIs(s[2..], n / 16, n % 16);
    }
  }

  lemma ZeroIsHex()
    ensures HexChar(0) == '0'
  {
  }

  lemma CodeIs(s: string, a: nat, b: nat)
    requires |s| >= 4 && HexValue(s[0]) == Some(0) && HexValue(s[1]) == Some(0)
    requires HexValue(s[2]) == Some(a) && HexValue(s[3]) == Some(b) && a < 16 && b < 16
    ensures Code(s) == Some((16 * a + b) as char)
  {
    hide HexValue;
  }

  lemma HexReads(n: int)
    requires 0 <= n < 16
    ensures HexValue(HexChar(n)) == Some(n)
  {
  }

  lemma {:induction false} StringReads(s: string, rest: string)
    ensures ReadString(EscapeOn(s, ['\"'] + rest)) == Some(Rest(s, rest))
  {
    hide Escape;
    if s == "" {
      assert (['\"'] + rest)[1..] == rest;
    } else {
      StringReads(s[1..], rest);
      EscapeReads(s[0], EscapeOn(s[1..], ['\"'] + rest));
      assert s == [s[0]] + s[1..];
    }
  }

  /** A text in front of which a number ends. */
  predicate EndsNumber(rest: string) {
    rest == "" || !NumberChar(rest[0])
  }

  lemma {:induction false} NumberReads(text: string, rest: string)
    requires EndsNumber(rest) && forall c :: c in text ==> NumberChar(c)
    ensures NumberEnd(text + rest) == |text|
  {
    if text == "" {
      assert text + rest == rest;
    } else {
      assert text[0] in text && (text + rest)[1..] == text[1..] + rest;
      NumberReads(text[1..], rest);
    }
  }

  lemma WordReads(v: Json, rest: string)
    requires v.Null? || v.Bool?
    ensures ReadValue(PrintOn(v, rest)) == Some(Rest(v, rest))
  {
    hide ReadItems, ReadFields, ReadString;
    assert ("null" + rest)[4..] == rest && ("null" + rest)[0] == 'n';
    assert ("true" + rest)[4..] == rest && ("true" + rest)[0] == 't';
    assert ("false" + rest)[5..] == rest && ("false" + rest)[0] == 'f';
  }

  lemma DigitsRead(text: string, rest: string)
    requires WellFormed(Num(text)) && EndsNumber(rest)
    ensures ReadValue(text + rest) == Some(Rest(Num(text), rest))
  {
    hide ReadItems, ReadFields, ReadString;
    var s := text + rest;
    NumberReads(text, rest);
    assert s[..|text|] == text && s[|text|..] == rest;
    assert text[0] in text && s[0] == text[0];
  }

  lemma QuotedReads(t: string, rest: string)
    ensures ReadValue(QuoteOn(t, rest)) == Some(Rest(Str(t), rest))
  {
    hide ReadItems, ReadFields, ReadString, EscapeOn;
    StringReads(t, rest);
    var s := QuoteOn(t, rest);
    assert s[0] == '\"' && s[1..] == EscapeOn(t, ['\"'] + rest);
  }

  lemma ListReads(s: string, items: seq<Json>, rest: string)
    requires s != "" && s[0] != ']' && ReadItems(s) == Some(Rest(items, rest))
    ensures ReadValue("[" + s) == Some(Rest(Arr(items), rest))
  {
    hide ReadItems, ReadFields, ReadString;
    var t := "[" + s;
    assert t[0] == '[' && t[1..] == s && t[1] == s[0];
  }

  lemma RecordReads(s: string, fields: seq<Field>, rest: string)
    requires s != "" && s[0] == '\"' && ReadFields(s) == Some(Rest(fields, rest))
    ensures ReadValue("{" + s) == Some(Rest(Obj(fields), rest))
  {
    hide ReadItems, ReadFields, ReadString;
    var t := "{" + s;
    assert t[0] == '{' && t[1..] == s && t[1] == s[0];
  }

  lemma NothingReads(rest: string)
    ensures ReadValue("[" + ("]" + rest)) == Some(Rest(Arr([]), rest)) && ReadValue("{" + ("}" + rest)) == Some(Rest(Obj([]), rest))
  {
    hide ReadItems, ReadFields, ReadString;
    var s, t := "[" + ("]" + rest), "{" + ("}" + rest);
    assert s == "[]" + rest && s[2..] == rest && t == "{}" + rest && t[2..] == rest && s[0] == '[' && t[0] == '{';
  }

  lemma {:induction false} ValueReads(v: Json, rest: string)
    requires WellFormed(v) && EndsNumber(rest)
    ensures ReadValue(PrintOn(v, rest)) == Some(Rest(v, rest))
    decreases v, 2
  {
    hide ReadValue, ReadString, ReadItems, ReadFields, EscapeOn, QuoteOn;
    match v
    case Null => WordReads(v, rest);
    case Bool(b) => WordReads(v, rest);
    case Num(text) => DigitsRead(text, rest);
    case Str(s) => QuotedReads(s, rest);
    case Arr(items) =>
      if items == [] {
        NothingReads(rest);
      } else {
        var s := PrintOn(items[0], ItemsOn(items[1..], false, rest));
        assert "" + s == s && PrintOn(v, rest) == "[" + s;
        ItemsRead(items, rest);
        ValueHead(items[0], ItemsOn(items[1..], false, rest));
        ListReads(s, items, rest);
      }
    case Obj(fields) =>
      if fields == [] {
        NothingReads(rest);
      } else {
        var s := FieldsTail(fields, rest);
        assert "" + s == s && PrintOn(v, rest) == "{" + s;
        FieldsRead(fields, rest);
        QuoteHead(fields[0].key, ":" + PrintOn(fields[0].value, FieldsOn(fields[1..], false, rest)));
        RecordReads(s, fields, rest);
      }
  }

  lemma QuoteHead(s: string, rest: string)
    ensures QuoteOn(s, rest) != "" && QuoteOn(s, rest)[0] == '\"'
  {
  }

  /** A printed value never starts like the end of a list. */
  lemma ValueHead(v: Json, rest: string)
    requires WellFormed(v)
    ensures PrintOn(v, rest) != "" && PrintOn(v, rest)[0] != ']'
  {
    if v.Num? { assert v.text[0] in v.text && PrintOn(v, rest)[0] == v.text[0]; }
  }

  function FieldsTail(fields: seq<Field>, rest: string): string
    requires fields != []
  {
    QuoteOn(fields[0].key, ":" + PrintOn(fields[0].value, FieldsOn(fields[1..], false, rest)))
  }

  lemma {:induction false} ItemsRead(items: seq<Json>, rest: string)
    requires items != [] && WellFormed(Arr(items))
    ensures ReadItems(PrintOn(items[0], ItemsOn(items[1..], false, rest))) == Some(Rest(items, rest))
    decreases items, 0
  {
    hide ReadValue, PrintOn;
    var more := items[1..];
    var tail := ItemsOn(more, false, rest);
    assert WellFormed(items[0]);
    if more == [] {
      assert tail == "]" + rest && tail[1..] == rest;
      ValueReads(items[0], tail);
      assert items == [items[0]];
    } else {
      assert tail == "," + PrintOn(more[0], ItemsOn(more[1..], false, rest));
      assert tail[1..] == PrintOn(more[0], ItemsOn(more[1..], false, rest));
      ValueReads(items[0], tail);
      assert WellFormed(Arr(more)) by { assert forall i :: 0 <= i < |more| ==> more[i] == items[i + 1]; }
      ItemsRead(more, rest);
      assert items == [items[0]] + more;
    }
  }

  lemma FieldReads(f: Field, tail: string)
    requires ReadValue(PrintOn(f.value, tail)) == Some(Rest(f.value, tail))
    ensures ReadField(QuoteOn(f.key, ":" + PrintOn(f.value, tail))) == Some(Rest(f, tail))
  {
    hide ReadValue, PrintOn, ReadString, EscapeOn;
    var after := ":" + PrintOn(f.value, tail);
    StringReads(f.key, after);
    var s := QuoteOn(f.key, after);
    assert s[0] == '\"' && s[1..] == EscapeOn(f.key, ['\"'] + after);
    assert after[1..] == PrintOn(f.value, tail);
  }

  lemma {:induction false} FieldsRead(fields: seq<Field>, rest: string)
    requires fields != [] && forall i :: 0 <= i < |fields| ==> WellFormed(fields[i].value)
    ensures ReadFields(FieldsTail(fields, rest)) == Some(Rest(fields, rest))
    decreases fields, 0
  {
    hide ReadField, PrintOn, QuoteOn;
    var more := fields[1..];
    var tail := FieldsOn(more, false, rest);
    if more == [] {
      assert tail == "}" + rest && tail[1..] == rest;
      ValueReads(fields[0].value, tail);
      FieldReads(fields[0], tail);
      assert fields == [fields[0]];
    } else {
      assert tail == "," + FieldsTail(more, rest) && tail[1..] == FieldsTail(more, rest);
      ValueReads(fields[0].value, tail);
      FieldReads(fields[0], tail);
      assert forall i :: 0 <= i < |more| ==> more[i] == fields[i + 1];
      FieldsRead(more, rest);
      assert fields == [fields[0]] + more;
    }
  }

  /** What the printer writes is JSON for the value. */
  lemma PrintedReadsBack(v: Json)
    requires WellFormed(v)
    ensures ReadJson(Print(v)) == Some(v)
  {
    hide ReadValue, Print, PrintOn;
    PrintOnSpec(v, "");
    assert Print(v) + "" == Print(v);
    ValueReads(v, "");
  }

  /** The printer escapes only what it must, and as shortly as it can, with small hexadecimal digits. */
  lemma EscapesAreShort(c: char)
    ensures |Escape(c)| == 1 <==> c as int >= 0x20 && c != '\"' && c != '\\'
    ensures |Escape(c)| == 2 <==> exists e :: e != '/' && Unescaped(e) == Some(c)
    ensures |Escape(c)| == 1 || |Escape(c)| == 2 || |Escape(c)| == 6
    ensures forall d :: d in Escape(c) && |Escape(c)| == 6 ==> !('A' <= d <= 'F')
  {
    var e := Escape(c);
    if |e| == 2 { assert e[1] != '/' && Unescaped(e[1]) == Some(c); }
  }
}
