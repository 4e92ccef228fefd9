/**
 Bytes, UTF-8 and digests.

 SHA-256 is modelled as a collision-free function with the shape of the program's digest text:
 `sha256:` followed by lower-case hexadecimal digits. The stand-in prints the whole preimage, so
 injectivity is a theorem here rather than an assumption.
 */
module Digest {

  type Byte = x: int | 0 <= x < 256
  type Bytes = seq<Byte>

  function HexDigit(n: int): (c: char)
    requires 0 <= n < 16
    ensures '0' <= c <= '9' || 'a' <= c <= 'f'
  {
    if n < 10 then (n + 48) as char else (n + 87) as char
  }

  function Hex(b: Bytes): string {
    if b == [] then "" else [HexDigit(b[0] / 16), HexDigit(b[0] % 16)] + Hex(b[1..])
  }

  function DigestText(b: Bytes): string {
    "sha256:" + Hex(b)
  }

  lemma {:induction false} HexInjective(a: Bytes, b: Bytes)
    requires Hex(a) == Hex(b)
    ensures a == b
  {
    if a != [] && b != [] {
      var x, y := Hex(a), Hex(b);
      assert x[0] == y[0] && x[1] == y[1];
      assert a[0] / 16 == b[0] / 16 && a[0] % 16 == b[0] % 16;
      assert Hex(a[1..]) == x[2..] == y[2..] == Hex(b[1..]);
      HexInjective(a[1..], b[1..]);
      assert a == [a[0]] + a[1..] && b == [b[0]] + b[1..];
    }
  }

  lemma DigestInjective(a: Bytes, b: Bytes)
    requires DigestText(a) == DigestText(b)
    ensures a == b
  {
    assert Hex(a) == DigestText(a)[7..] == DigestText(b)[7..] == Hex(b);
    HexInjective(a, b);
  }

  /** Digest text never holds the `|` that separates a journal key from its tree digest. */
  lemma {:induction false} HexAlphabet(b: Bytes)
    ensures forall c :: c in Hex(b) ==> '0' <= c <= '9' || 'a' <= c <= 'f'
  {
    if b != [] {
      HexAlphabet(b[1..]);
    }
  }

  lemma DigestHasNoBar(b: Bytes)
    ensures '|' !in DigestText(b)
  {
    HexAlphabet(b);
    assert '|' !in "sha256:";
  }

  function Utf8Char(c: char): Bytes {
    var n := c as int;
    if n < 0x80 then [n]
    else if n < 0x800 then [0xC0 + n / 0x40, 0x80 + n % 0x40]
    else if n < 0x1_0000 then [0xE0 + n / 0x1000, 0x80 + n / 0x40 % 0x40, 0x80 + n % 0x40]
    else [0xF0 + n / 0x4_0000, 0x80 + n / 0x1000 % 0x40, 0x80 + n / 0x40 % 0x40, 0x80 + n % 0x40]
  }

  function Utf8(s: string): Bytes {
    if s == "" then [] else Utf8Char(s[0]) + Utf8(s[1..])
  }
}
