/**
 JSON values and the compact printer shared by `JSON.stringify` and `serde_json::to_vec`.

 Text is a sequence of Unicode scalar values. A number is kept as the text the printer emits for
 it, so `Num("1")` and `Num("1.0")` are different values.
 */
module Json {

  datatype Field = Field(key: string, value: Json)

  datatype Json =
    | Null
    | Bool(b: bool)
    | Num(text: string)
    | Str(s: string)
    | Arr(items: seq<Json>)
    | Obj(fields: seq<Field>)

  predicate NumberChar(c: char) {
    '0' <= c <= '9' || c == '-' || c == '+' || c == '.' || c == 'e' || c == 'E'
  }

  /** Number texts are number tokens, and an object holds a key once. */
  ghost predicate WellFormed(v: Json) {
    match v
    case Null => true
    case Bool(_) => true
    case Num(text) => text != "" && forall c :: c in text ==> NumberChar(c)
    case Str(_) => true
    case Arr(items) => forall i :: 0 <= i < |items| ==> WellFormed(items[i])
    case Obj(fields) =>
      && (forall i :: 0 <= i < |fields| ==> WellFormed(fields[i].value))
      && (forall i, j :: 0 <= i < j < |fields| ==> fields[i].key != fields[j].key)
  }

  // ---------------------------------------------------------------- printing

  function HexChar(n: int): char
    requires 0 <= n < 16
  {
    if n < 10 then (n + 48) as char else (n + 87) as char
  }

  /** The escape of one character inside a JSON string. */
  function Escape(c: char): (r: string)
    ensures |r| >= 1
  {
    var n := c as int;
    if n == 0x22 then ['\\', '\"']
    else if n == 0x5c then ['\\', '\\']
    else if n == 8 then ['\\', 'b']
    else if n == 9 then ['\\', 't']
    else if n == 10 then ['\\', 'n']
    else if n == 12 then ['\\', 'f']
    else if n == 13 then ['\\', 'r']
    else if n < 32 then ['\\', 'u', '0', '0', HexChar(n / 16), HexChar(n % 16)]
    else [c]
  }

  function EscapeAll(s: string): string {
    if s == "" then "" else Escape(s[0]) + EscapeAll(s[1..])
  }

  function Quote(s: string): string {
    ['\"'] + EscapeAll(s) + ['\"']
  }

  function Print(v: Json): string
    decreases v, 1
  {
    match v
    case Null => "null"
    case Bool(b) => if b then "true" else "false"
    case Num(text) => text
    case Str(s) => Quote(s)
    case Arr(items) => "[" + PrintItems(items, true)
    case Obj(fields) => "{" + PrintFields(fields, true)
  }

  function Comma(first: bool): string {
    if first then "" else ","
  }

  function PrintItems(items: seq<Json>, first: bool): string
    decreases items, 0
  {
    if items == [] then "]" else Comma(first) + Print(items[0]) + PrintItems(items[1..], false)
  }

  function PrintFields(fields: seq<Field>, first: bool): string
    decreases fields, 0
  {
    if fields == [] then "}"
    else
      Comma(first) + Quote(fields[0].key) + ":" + Print(fields[0].value) + PrintFields(fields[1..], false)
  }

  // ---------------------------------------------------------------- printing in front of a text

  function EscapeOn(s: string, rest: string): string {
    if s == "" then rest else Escape(s[0]) + EscapeOn(s[1..], rest)
  }

  function QuoteOn(s: string, rest: string): string {
    ['\"'] + EscapeOn(s, ['\"'] + rest)
  }

  function PrintOn(v: Json, rest: string): string
    decreases v, 1
  {
    match v
    case Null => "null" + rest
    case Bool(b) => (if b then "true" else "false") + rest
    case Num(text) => text + rest
    case Str(s) => QuoteOn(s, rest)
    case Arr(items) => "[" + ItemsOn(items, true, rest)
    case Obj(fields) => "{" + FieldsOn(fields, true, rest)
  }

  function ItemsOn(items: seq<Json>, first: bool, rest: string): string
    decreases items, 0
  {
    if items == [] then "]" + rest else Comma(first) + PrintOn(items[0], ItemsOn(items[1..], false, rest))
  }

  function FieldsOn(fields: seq<Field>, first: bool, rest: string): string
    decreases fields, 0
  {
    if fields == [] then "}" + rest
    else
      Comma(first) +
      QuoteOn(fields[0].key, ":" + PrintOn(fields[0].value, FieldsOn(fields[1..], false, rest)))
  }

  lemma {:induction false} EscapeOnSpec(s: string, rest: string)
    ensures EscapeOn(s, rest) == EscapeAll(s) + rest
  {
    if s != "" { EscapeOnSpec(s[1..], rest); }
  }

  lemma QuoteOnSpec(s: string, rest: string)
    ensures QuoteOn(s, rest) == Quote(s) + rest
  {
    EscapeOnSpec(s, ['\"'] + rest);
  }

  lemma {:induction false} PrintOnSpec(v: Json, rest: string)
    ensures PrintOn(v, rest) == Print(v) + rest
    decreases v, 1
  {
    match v
    case Null =>
    case Bool(_) =>
    case Num(_) =>
    case Str(s) => QuoteOnSpec(s, rest);
    case Arr(items) => ItemsOnSpec(items, true, rest);
    case Obj(fields) => FieldsOnSpec(fields, true, rest);
  }

  lemma Regroup(a: string, b: string, c: string, rest: string)
    ensures a + b + c + rest == a + (b + (c + rest))
  {
    assert a + b + c + rest == a + (b + c + rest);
  }

  lemma {:induction false} ItemsOnSpec(items: seq<Json>, first: bool, rest: string)
    ensures ItemsOn(items, first, rest) == PrintItems(items, first) + rest
    decreases items, 0
  {
    if items != [] {
      var tail := ItemsOn(items[1..], false, rest);
      ItemsOnSpec(items[1..], false, rest);
      PrintOnSpec(items[0], tail);
      Regroup(Comma(first), Print(items[0]), PrintItems(items[1..], false), rest);
    }
  }

  lemma {:induction false} FieldsOnSpec(fields: seq<Field>, first: bool, rest: string)
    ensures FieldsOn(fields, first, rest) == PrintFields(fields, first) + rest
    decreases fields, 0
  {
    if fields != [] {
      var tail := FieldsOn(fields[1..], false, rest);
      var key, value, others := Quote(fields[0].key), Print(fields[0].value), PrintFields(fields[1..], false);
      FieldsOnSpec(fields[1..], false, rest);
      PrintOnSpec(fields[0].value, tail);
      QuoteOnSpec(fields[0].key, ":" + PrintOn(fields[0].value, tail));
      assert FieldsOn(fields, first, rest) == Comma(first) + (key + (":" + (value + (others + rest))));
      Regroup(Comma(first) + key + ":", value, others, rest);
      Regroup(Comma(first), key, ":", value + (others + rest));
    }
  }

  // ---------------------------------------------------------------- unique reading

  lemma Cancel(p: string, x: string, y: string)
    requires p + x == p + y
    ensures x == y
  {
    assert x == (p + x)[|p|..] && y == (p + y)[|p|..];
  }

  lemma EscapeIsPrefixFree(c: char, d: char, x: string, y: string)
    requires Escape(c) + x == Escape(d) + y
    ensures c == d && x == y
  {
    var l, r := Escape(c) + x, Escape(d) + y;
    assert l[0] == r[0];
    assert Escape(c)[0] == l[0] && Escape(d)[0] == r[0];
    if |Escape(c)| > 1 && |Escape(d)| > 1 {
      assert l[1] == r[1];
      assert Escape(c)[1] == l[1] && Escape(d)[1] == r[1];
      if |Escape(c)| == 6 && |Escape(d)| == 6 {
        assert l[4] == r[4] && l[5] == r[5];
        assert Escape(c)[4] == l[4] && Escape(d)[4] == r[4];
        assert Escape(c)[5] == l[5] && Escape(d)[5] == r[5];
      }
    }
    assert c == d;
    Cancel(Escape(c), x, y);
  }

  lemma EscapeNeverQuote(c: char, x: string)
    ensures (Escape(c) + x)[0] != '\"'
  {
  }

  /** A quoted string ends at its own closing quote. */
  lemma {:induction false} EscapeOnIsUnique(a: string, b: string, x: string, y: string)
    requires x != "" && x[0] == '\"' && y != "" && y[0] == '\"'
    requires EscapeOn(a, x) == EscapeOn(b, y)
    ensures a == b && x == y
  {
    if a != "" { EscapeNeverQuote(a[0], EscapeOn(a[1..], x)); }
    if b != "" { EscapeNeverQuote(b[0], EscapeOn(b[1..], y)); }
    if a != "" && b != "" {
      EscapeIsPrefixFree(a[0], b[0], EscapeOn(a[1..], x), EscapeOn(b[1..], y));
      EscapeOnIsUnique(a[1..], b[1..], x, y);
      assert a == [a[0]] + a[1..] && b == [b[0]] + b[1..];
    }
  }

  lemma QuoteOnIsUnique(a: string, b: string, x: string, y: string)
    requires QuoteOn(a, x) == QuoteOn(b, y)
    ensures a == b && x == y
  {
    var q := ['\"'];
    Cancel(q, EscapeOn(a, q + x), EscapeOn(b, q + y));
    EscapeOnIsUnique(a, b, q + x, q + y);
    Cancel(q, x, y);
  }

  /** What may follow a value: nothing, or a character no number contains. */
  predicate Delimited(s: string) {
    s == "" || s[0] == ',' || s[0] == ']' || s[0] == '}'
  }

  /** The length of the longest run of number characters at the front. */
  function Munch(s: string): nat {
    if s == "" || !NumberChar(s[0]) then 0 else 1 + Munch(s[1..])
  }

  lemma {:induction false} MunchSpec(a: string, x: string)
    requires forall c :: c in a ==> NumberChar(c)
    requires Delimited(x)
    ensures Munch(a + x) == |a|
  {
    if a == "" {
      assert a + x == x;
    } else {
      assert a[0] in a && (a + x)[1..] == a[1..] + x;
      MunchSpec(a[1..], x);
    }
  }

  lemma NumberIsUnique(a: string, b: string, x: string, y: string)
    requires forall c :: c in a ==> NumberChar(c)
    requires forall c :: c in b ==> NumberChar(c)
    requires Delimited(x) && Delimited(y)
    requires a + x == b + y
    ensures a == b && x == y
  {
    MunchSpec(a, x);
    MunchSpec(b, y);
    assert a == (a + x)[..|a|] && b == (b + y)[..|b|];
    Cancel(a, x, y);
  }

  /** The first character tells the kind of a value. */
  function Head(v: Json): char {
    match v
    case Null => 'n'
    case Bool(b) => if b then 't' else 'f'
    case Num(text) => if text == "" then '0' else text[0]
    case Str(_) => '\"'
    case Arr(_) => '['
    case Obj(_) => '{'
  }

  lemma HeadSpec(v: Json, x: string)
    requires WellFormed(v)
    ensures PrintOn(v, x) != "" && PrintOn(v, x)[0] == Head(v)
    ensures Head(v) != ']' && Head(v) != '}' && Head(v) != ','
    ensures v.Num? <==> NumberChar(Head(v))
  {
    if v.Num? { assert v.text[0] in v.text; }
  }

  lemma SameKind(v: Json, w: Json)
    requires WellFormed(v) && WellFormed(w) && Head(v) == Head(w)
    ensures v.Null? == w.Null? && v.Bool? == w.Bool? && v.Num? == w.Num?
    ensures v.Str? == w.Str? && v.Arr? == w.Arr? && v.Obj? == w.Obj?
    ensures v.Bool? ==> v == w
  {
    HeadSpec(v, "");
    HeadSpec(w, "");
  }

  ghost predicate WellFormedItems(items: seq<Json>) {
    forall i :: 0 <= i < |items| ==> WellFormed(items[i])
  }

  ghost predicate WellFormedFields(fields: seq<Field>) {
    forall i :: 0 <= i < |fields| ==> WellFormed(fields[i].value)
  }

  lemma ItemsHead(items: seq<Json>, first: bool, x: string)
    requires WellFormedItems(items)
    ensures ItemsOn(items, first, x) != ""
    ensures ItemsOn(items, first, x)[0] == ']' <==> items == []
  {
    if items != [] { HeadSpec(items[0], ItemsOn(items[1..], false, x)); }
  }

  lemma FieldsHead(fields: seq<Field>, first: bool, x: string)
    ensures FieldsOn(fields, first, x) != ""
    ensures FieldsOn(fields, first, x)[0] == '}' <==> fields == []
  {
  }

  /** Printed text is uniquely readable: value and remainder are both determined. */
  lemma {:induction false} PrintOnIsUnique(v: Json, w: Json, x: string, y: string)
    requires WellFormed(v) && WellFormed(w)
    requires Delimited(x) && Delimited(y)
    requires PrintOn(v, x) == PrintOn(w, y)
    ensures v == w && x == y
    decreases v, 1
  {
    HeadSpec(v, x);
    HeadSpec(w, y);
    SameKind(v, w);
    match v
    case Null => Cancel("null", x, y);
    case Bool(b) => Cancel(if b then "true" else "false", x, y);
    case Num(text) => NumberIsUnique(text, w.text, x, y);
    case Str(s) => QuoteOnIsUnique(s, w.s, x, y);
    case Arr(items) =>
      Cancel("[", ItemsOn(items, true, x), ItemsOn(w.items, true, y));
      ItemsAreUnique(items, w.items, true, x, y);
    case Obj(fields) =>
      Cancel("{", FieldsOn(fields, true, x), FieldsOn(w.fields, true, y));
      FieldsAreUnique(fields, w.fields, true, x, y);
  }

  lemma {:induction false} ItemsAreUnique(a: seq<Json>, b: seq<Json>, first: bool, x: string, y: string)
    requires WellFormedItems(a) && WellFormedItems(b)
    requires ItemsOn(a, first, x) == ItemsOn(b, first, y)
    ensures a == b && x == y
    decreases a, 0
  {
    ItemsHead(a, first, x);
    ItemsHead(b, first, y);
    if a == [] {
      Cancel("]", x, y);
    } else {
      var a', b' := ItemsOn(a[1..], false, x), ItemsOn(b[1..], false, y);
      Cancel(Comma(first), PrintOn(a[0], a'), PrintOn(b[0], b'));
      assert Delimited(a') && Delimited(b');
      PrintOnIsUnique(a[0], b[0], a', b');
      ItemsAreUnique(a[1..], b[1..], false, x, y);
      assert a == [a[0]] + a[1..] && b == [b[0]] + b[1..];
    }
  }

  lemma {:induction false} FieldsAreUnique(a: seq<Field>, b: seq<Field>, first: bool, x: string, y: string)
    requires WellFormedFields(a) && WellFormedFields(b)
    requires FieldsOn(a, first, x) == FieldsOn(b, first, y)
    ensures a == b && x == y
    decreases a, 0
  {
    FieldsHead(a, first, x);
    FieldsHead(b, first, y);
    if a == [] {
      Cancel("}", x, y);
    } else {
      var a', b' := FieldsOn(a[1..], false, x), FieldsOn(b[1..], false, y);
      var av, bv := PrintOn(a[0].value, a'), PrintOn(b[0].value, b');
      Cancel(Comma(first), QuoteOn(a[0].key, ":" + av), QuoteOn(b[0].key, ":" + bv));
      QuoteOnIsUnique(a[0].key, b[0].key, ":" + av, ":" + bv);
      Cancel(":", av, bv);
      assert Delimited(a') && Delimited(b');
      PrintOnIsUnique(a[0].value, b[0].value, a', b');
      FieldsAreUnique(a[1..], b[1..], false, x, y);
      assert a == [a[0]] + a[1..] && b == [b[0]] + b[1..];
    }
  }

  /** The compact printer is injective. */
  lemma PrintInjective(v: Json, w: Json)
    requires WellFormed(v) && WellFormed(w)
    requires Print(v) == Print(w)
    ensures v == w
  {
    PrintOnSpec(v, "");
    PrintOnSpec(w, "");
    PrintOnIsUnique(v, w, "", "");
  }
}
