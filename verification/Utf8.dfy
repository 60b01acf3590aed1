/** `str.encode()` and the strict `bytes.decode()`, in UTF-8 (RFC 3629). */
module Utf8 {
  import opened Prelude

  type Byte = n: nat | n < 256

  function EncodeChar(c: char): (bytes: seq<Byte>)
    ensures 1 <= |bytes| <= 4
  {
    var n := c as int;
    var q := n / 0x40;
    var p := q / 0x40;
    if n < 0x80 then [n]
    else if n < 0x800 then [0xC0 + q, 0x80 + n % 0x40]
    else if n < 0x10000 then [0xE0 + p, 0x80 + q % 0x40, 0x80 + n % 0x40]
    else [0xF0 + p / 0x40, 0x80 + p % 0x40, 0x80 + q % 0x40, 0x80 + n % 0x40]
  }

  function Encode(text: string): seq<Byte> {
    if text == "" then [] else EncodeChar(text[0]) + Encode(text[1..])
  }

  predicate Tail(b: Byte) { 0x80 <= b < 0xC0 }

  /** Six more bits below the value read so far. */
  function Shift(n: int, b: Byte): int { n * 0x40 + (b as int - 0x80) }

  /** The first code point of `bytes` and the number of bytes it takes; overlong forms and surrogates are errors. */
  function DecodeFirst(bytes: seq<Byte>): (r: Option<(char, nat)>)
    requires bytes != []
    ensures r.Some? ==> 1 <= r.value.1 <= |bytes|
  {
    var b: int := bytes[0];
    if b < 0x80 then Some((b as char, 1))
    else if 0xC2 <= b < 0xE0 && |bytes| >= 2 && Tail(bytes[1]) then
      Some((Shift(b - 0xC0, bytes[1]) as char, 2))
    else if 0xE0 <= b < 0xF0 && |bytes| >= 3 && Tail(bytes[1]) && Tail(bytes[2]) then
      var n := Shift(Shift(b - 0xE0, bytes[1]), bytes[2]);
      if n < 0x800 || 0xD800 <= n < 0xE000 then None else Some((n as char, 3))
    else if 0xF0 <= b < 0xF5 && |bytes| >= 4 && Tail(bytes[1]) && Tail(bytes[2]) && Tail(bytes[3]) then
      var n := Shift(Shift(Shift(b - 0xF0, bytes[1]), bytes[2]), bytes[3]);
      if n < 0x10000 || n >= 0x110000 then None else Some((n as char, 4))
    else None
  }

  function Decode(bytes: seq<Byte>): Option<string> {
    if bytes == [] then Some("")
    else
      match DecodeFirst(bytes)
      case None => None
      case Some((c, k)) =>
        match Decode(bytes[k..])
        case None => None
        case Some(rest) => Some([c] + rest)
  }

  lemma DecodesFirst(c: char, rest: seq<Byte>)
    ensures DecodeFirst(EncodeChar(c) + rest) == Some((c, |EncodeChar(c)|))
  {
    var n, bytes := c as int, EncodeChar(c) + rest;
    var q := n / 0x40;
    var p := q / 0x40;
    assert n == q * 0x40 + n % 0x40 && q == p * 0x40 + q % 0x40 && p == p / 0x40 * 0x40 + p % 0x40;
    if n < 0x80 {
      assert bytes[0] == n;
    } else if n < 0x800 {
      assert bytes[0] == 0xC0 + q && bytes[1] == 0x80 + n % 0x40;
    } else if n < 0x10000 {
      assert bytes[0] == 0xE0 + p && bytes[1] == 0x80 + q % 0x40 && bytes[2] == 0x80 + n % 0x40;
    } else {
      assert bytes[0] == 0xF0 + p / 0x40 && bytes[1] == 0x80 + p % 0x40;
      assert bytes[2] == 0x80 + q % 0x40 && bytes[3] == 0x80 + n % 0x40;
    }
  }

  /** Every text survives encoding and strict decoding. */
  lemma {:induction false} RoundTrip(text: string)
    ensures Decode(Encode(text)) == Some(text)
  {
    if text != "" {
      var first, rest := EncodeChar(text[0]), Encode(text[1..]);
      DecodesFirst(text[0], rest);
      assert (first + rest)[|first|..] == rest;
      RoundTrip(text[1..]);
      assert text == [text[0]] + text[1..];
    }
  }
}
