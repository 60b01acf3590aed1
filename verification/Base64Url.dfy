/** Base64 with the URL-safe alphabet (section 5 of RFC 4648), padding stripped by the writer and restored by the reader. */
module Base64Url {
  import opened Prelude
  import opened Utf8

  type Sextet = n: nat | n < 64

  function Letter(n: Sextet): (c: char)
    ensures c != '='
  {
    if n < 26 then 'A' + n as char
    else if n < 52 then 'a' + (n - 26) as char
    else if n < 62 then '0' + (n - 52) as char
    else if n == 62 then '-'
    else '_'
  }

  /** The reader maps the URL-safe letters onto `+` and `/`, so it accepts both spellings. */
  function SextetOf(c: char): Option<Sextet> {
    if 'A' <= c <= 'Z' then Some(c as int - 'A' as int)
    else if 'a' <= c <= 'z' then Some(c as int - 'a' as int + 26)
    else if '0' <= c <= '9' then Some(c as int - '0' as int + 52)
    else if c == '-' || c == '+' then Some(62)
    else if c == '_' || c == '/' then Some(63)
    else None
  }

  /** The letters run as in table 2 of RFC 4648, and four of them spell the number that three bytes do. */
  lemma AlphabetRuns(n: Sextet)
    ensures Letter(0) == 'A' && Letter(26) == 'a' && Letter(52) == '0' && Letter(62) == '-' && Letter(63) == '_'
    ensures n < 61 && n != 25 && n != 51 ==> Letter(n + 1) == Letter(n) + 1 as char
  {
  }

  lemma QuadSpells(x: Byte, y: Byte, z: Byte)
    ensures
      var quad := Quad(x, y, z);
      && SextetOf(quad[0]).Some? && SextetOf(quad[1]).Some? && SextetOf(quad[2]).Some? && SextetOf(quad[3]).Some?
      && ((SextetOf(quad[0]).value * 64 + SextetOf(quad[1]).value) * 64 + SextetOf(quad[2]).value) * 64 + SextetOf(quad[3]).value
         == (x * 256 + y) * 256 + z
  {
    LetterRoundTrip(x / 4);
    LetterRoundTrip(x % 4 * 16 + y / 16);
    LetterRoundTrip(y % 16 * 4 + z / 64);
    LetterRoundTrip(z % 64);
    hide Letter, SextetOf;
  }

  lemma LetterRoundTrip(n: Sextet)
    ensures SextetOf(Letter(n)) == Some(n)
    ensures Letter(n) < 128 as char
  {
  }

  /** Three bytes as four letters. */
  function Quad(x: Byte, y: Byte, z: Byte): string {
    [Letter(x / 4), Letter(x % 4 * 16 + y / 16), Letter(y % 16 * 4 + z / 64), Letter(z % 64)]
  }

  /** The standard encoder: whole groups of three bytes, and a padded last group. */
  function Encode(bytes: seq<Byte>): (text: string)
    ensures |text| % 4 == 0
  {
    if bytes == [] then ""
    else if |bytes| == 1 then
      [Letter(bytes[0] / 4), Letter(bytes[0] % 4 * 16), '=', '=']
    else if |bytes| == 2 then
      [Letter(bytes[0] / 4), Letter(bytes[0] % 4 * 16 + bytes[1] / 16), Letter(bytes[1] % 16 * 4), '=']
    else
      Quad(bytes[0], bytes[1], bytes[2]) + Encode(bytes[3..])
  }

  /** `rstrip("=")`. */
  function Strip(text: string): string {
    if text != "" && text[|text| - 1] == '=' then Strip(text[..|text| - 1]) else text
  }

  function Pads(n: nat): (text: string)
    ensures |text| == n
  {
    if n == 0 then "" else Pads(n - 1) + "="
  }

  /** `text + "=" * (-len(text) % 4)`, with Python's non-negative remainder. */
  function Pad(text: string): string {
    text + Pads((-|text|) % 4)
  }

  /** What the reader has taken from the current group of four: how many letters, and the bits left over. */
  datatype Reader = Reader(position: nat, left: nat, pads: nat)

  /** Six, four or two bits are left over after one, two or three letters of a group. */
  predicate Consistent(r: Reader) {
    r.position < 4 && r.left < if r.position == 1 then 64 else if r.position == 2 then 16 else if r.position == 3 then 4 else 1
  }

  /**
    * The lenient reader: letters outside the alphabet are skipped, a sufficient run of `=` ends the text,
    * and an unfinished group is an error.
    */
  function Read(text: string, r: Reader): Option<seq<Byte>>
    requires Consistent(r)
    decreases |text|
  {
    if text == "" then (if r.position == 0 then Some([]) else None)
    else
      var c := text[0];
      if c == '=' then
        if r.position >= 2 && r.position + r.pads + 1 >= 4 then Some([])
        else Read(text[1..], if r.position >= 2 then r.(pads := r.pads + 1) else r)
      else
        match SextetOf(c)
        case None => Read(text[1..], r)
        case Some(s) =>
          if r.position == 0 then Read(text[1..], Reader(1, s, 0))
          else if r.position == 1 then Then(r.left * 4 + s / 16, Read(text[1..], Reader(2, s % 16, 0)))
          else if r.position == 2 then Then(r.left * 16 + s / 4, Read(text[1..], Reader(3, s % 4, 0)))
          else Then(r.left * 64 + s, Read(text[1..], Reader(0, 0, 0)))
  }

  function Then(b: Byte, rest: Option<seq<Byte>>): Option<seq<Byte>> {
    match rest
    case None => None
    case Some(bytes) => Some([b] + bytes)
  }

  /** `urlsafe_b64decode`: non-ASCII text is refused before anything is read. */
  function Decode(text: string): Option<seq<Byte>> {
    if exists i :: 0 <= i < |text| && text[i] >= 128 as char then None else Read(text, Reader(0, 0, 0))
  }

  lemma ReadsOne(a: Sextet, rest: string, r: Reader)
    requires Consistent(r)
    ensures Read([Letter(a)] + rest, r) ==
      if r.position == 0 then Read(rest, Reader(1, a, 0))
      else if r.position == 1 then Then(r.left * 4 + a / 16, Read(rest, Reader(2, a % 16, 0)))
      else if r.position == 2 then Then(r.left * 16 + a / 4, Read(rest, Reader(3, a % 4, 0)))
      else Then(r.left * 64 + a, Read(rest, Reader(0, 0, 0)))
  {
    LetterRoundTrip(a);
    var text := [Letter(a)] + rest;
    assert text[0] == Letter(a) && text[1..] == rest;
    hide SextetOf, Letter;
  }

  lemma {:induction false} ReadsGroup(a: Sextet, b: Sextet, c: Sextet, d: Sextet, rest: string)
    ensures Read([Letter(a), Letter(b), Letter(c), Letter(d)] + rest, Reader(0, 0, 0))
         == Then(a * 4 + b / 16, Then(b % 16 * 16 + c / 4, Then(c % 4 * 64 + d, Read(rest, Reader(0, 0, 0)))))
  {
    var r3 := [Letter(d)] + rest;
    var r2 := [Letter(c)] + r3;
    var r1 := [Letter(b)] + r2;
    assert [Letter(a), Letter(b), Letter(c), Letter(d)] + rest == [Letter(a)] + r1;
    ReadsOne(a, r1, Reader(0, 0, 0));
    ReadsOne(b, r2, Reader(1, a, 0));
    ReadsOne(c, r3, Reader(2, b % 16, 0));
    ReadsOne(d, rest, Reader(3, c % 4, 0));
  }

  lemma {:induction false} ReadsPair(a: Sextet, b: Sextet)
    ensures Read([Letter(a), Letter(b), '=', '='], Reader(0, 0, 0)) == Some([a * 4 + b / 16])
  {
    assert [Letter(a), Letter(b), '=', '='] == [Letter(a)] + ([Letter(b)] + "==");
    ReadsOne(a, [Letter(b)] + "==", Reader(0, 0, 0));
    ReadsOne(b, "==", Reader(1, a, 0));
    assert "=="[1..] == "=";
    assert Read("=", Reader(2, b % 16, 1)) == Some([]);
    assert Read("==", Reader(2, b % 16, 0)) == Some([]);
    assert [a * 4 + b / 16] + [] == [a * 4 + b / 16];
  }

  lemma {:induction false} ReadsTriple(a: Sextet, b: Sextet, c: Sextet)
    ensures Read([Letter(a), Letter(b), Letter(c), '='], Reader(0, 0, 0)) == Some([a * 4 + b / 16, b % 16 * 16 + c / 4])
  {
    var r2 := [Letter(c)] + "=";
    assert [Letter(a), Letter(b), Letter(c), '='] == [Letter(a)] + ([Letter(b)] + r2);
    ReadsOne(a, [Letter(b)] + r2, Reader(0, 0, 0));
    ReadsOne(b, r2, Reader(1, a, 0));
    ReadsOne(c, "=", Reader(2, b % 16, 0));
    assert Read("=", Reader(3, c % 4, 0)) == Some([]);
    assert [a * 4 + b / 16] + ([b % 16 * 16 + c / 4] + []) == [a * 4 + b / 16, b % 16 * 16 + c / 4];
  }

  /** Three bytes cut into four sextets and put together again. */
  lemma Regroup(x: Byte, y: Byte, z: Byte)
    ensures x / 4 * 4 + (x % 4 * 16 + y / 16) / 16 == x
    ensures (x % 4 * 16 + y / 16) % 16 * 16 + (y % 16 * 4 + z / 64) / 4 == y
    ensures (y % 16 * 4 + z / 64) % 4 * 64 + z % 64 == z
  {
  }

  lemma ReadsBytes(x: Byte, y: Byte, z: Byte, rest: string)
    ensures Read(Quad(x, y, z) + rest, Reader(0, 0, 0)) == Then(x, Then(y, Then(z, Read(rest, Reader(0, 0, 0)))))
  {
    Regroup(x, y, z);
    ReadsGroup(x / 4, x % 4 * 16 + y / 16, y % 16 * 4 + z / 64, z % 64, rest);
  }

  lemma ReadsLastOne(x: Byte)
    ensures Read([Letter(x / 4), Letter(x % 4 * 16), '=', '='], Reader(0, 0, 0)) == Some([x])
  {
    ReadsPair(x / 4, x % 4 * 16);
    assert x / 4 * 4 + x % 4 * 16 / 16 == x;
  }

  lemma ReadsLastTwo(x: Byte, y: Byte)
    ensures Read([Letter(x / 4), Letter(x % 4 * 16 + y / 16), Letter(y % 16 * 4), '='], Reader(0, 0, 0)) == Some([x, y])
  {
    var b: Sextet, c: Sextet := x % 4 * 16 + y / 16, y % 16 * 4;
    ReadsTriple(x / 4, b, c);
    assert x / 4 * 4 + b / 16 == x;
    assert b % 16 * 16 + c / 4 == y;
  }

  /** Reading what was written gives the bytes back. */
  lemma {:induction false} ReadsEncoded(bytes: seq<Byte>)
    ensures Read(Encode(bytes), Reader(0, 0, 0)) == Some(bytes)
  {
    if bytes == [] {
    } else if |bytes| == 1 {
      ReadsLastOne(bytes[0]);
      assert bytes == [bytes[0]];
    } else if |bytes| == 2 {
      ReadsLastTwo(bytes[0], bytes[1]);
      assert bytes == [bytes[0], bytes[1]];
    } else {
      ReadsBytes(bytes[0], bytes[1], bytes[2], Encode(bytes[3..]));
      ReadsEncoded(bytes[3..]);
      assert bytes == [bytes[0]] + ([bytes[1]] + ([bytes[2]] + bytes[3..]));
    }
  }

  lemma {:induction false} EncodedIsAscii(bytes: seq<Byte>)
    ensures forall i :: 0 <= i < |Encode(bytes)| ==> Encode(bytes)[i] < 128 as char
  {
    if |bytes| >= 3 {
      EncodedIsAscii(bytes[3..]);
    }
  }

  /** A text whose length is a multiple of four and that ends in at most two `=` gets back what was stripped. */
  lemma {:induction false} PaddingRestored(body: string, n: nat)
    requires n <= 2 && (|body| + n) % 4 == 0
    requires body == "" || body[|body| - 1] != '='
    ensures Strip(body + Pads(n)) == body
    ensures Pad(body) == body + Pads(n)
  {
    hide Strip, Pads;
    StripBody(body, n);
    assert (-|body|) % 4 == n;
  }

  lemma {:induction false} StripBody(body: string, n: nat)
    requires body == "" || body[|body| - 1] != '='
    ensures Strip(body + Pads(n)) == body
  {
    if n == 0 {
      assert body + Pads(0) == body;
    } else {
      var text := body + Pads(n);
      assert text[|text| - 1] == '=' && text[..|text| - 1] == body + Pads(n - 1);
      StripBody(body, n - 1);
    }
  }

  /** An encoded text is a body that does not end in `=`, and at most two `=`. */
  lemma {:induction false} EncodedShape(bytes: seq<Byte>) returns (body: string, n: nat)
    ensures Encode(bytes) == body + Pads(n) && n <= 2
    ensures body == "" || body[|body| - 1] != '='
  {
    if bytes == [] {
      body, n := "", 0;
    } else if |bytes| == 1 {
      body, n := Encode(bytes)[..2], 2;
    } else if |bytes| == 2 {
      body, n := Encode(bytes)[..3], 1;
    } else {
      var rest;
      rest, n := EncodedShape(bytes[3..]);
      body := Encode(bytes)[..4] + rest;
      assert Encode(bytes) == Encode(bytes)[..4] + Encode(bytes[3..]);
    }
  }

  /** Stripping the padding loses nothing: the reader's own padding restores the text. */
  lemma PadStripIdentity(bytes: seq<Byte>)
    ensures Pad(Strip(Encode(bytes))) == Encode(bytes)
  {
    var body, n := EncodedShape(bytes);
    PaddingRestored(body, n);
  }

  /** Every byte string survives the stripped encoding. */
  lemma RoundTrip(bytes: seq<Byte>)
    ensures Decode(Pad(Strip(Encode(bytes)))) == Some(bytes)
  {
    PadStripIdentity(bytes);
    EncodedIsAscii(bytes);
    ReadsEncoded(bytes);
  }
}
