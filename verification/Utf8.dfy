/** UTF-8, as RFC 3629 defines it: the bytes of a text, and reading them back. */
module Utf8 {
  import opened Text

  type Byte = b: int | 0 <= b < 0x100

  /** Six bits of a code point, as a continuation byte. */
  function Continuation(bits: int): Byte {
    0x80 + bits % 0x40
  }

  function EncodeChar(c: char): (bytes: seq<Byte>)
    ensures 1 <= |bytes| <= 4
  {
    var code := c as int;
    if code < 0x80 then [code]
    else if code < 0x800 then [0xC0 + code / 0x40, Continuation(code)]
    else if code < 0x1_0000 then [0xE0 + code / 0x1000, Continuation(code / 0x40), Continuation(code)]
    else [0xF0 + code / 0x4_0000, Continuation(code / 0x1000), Continuation(code / 0x40), Continuation(code)]
  }

  function Encode(s: string): seq<Byte> {
    if s == "" then [] else EncodeChar(s[0]) + Encode(s[1..])
  }

  predicate IsContinuation(b: Byte) {
    0x80 <= b < 0xC0
  }

  /** What a byte carries beyond its mark. */
  function Bits(b: Byte, mark: int): int {
    b as int - mark
  }

  /** The first code point and how many bytes it takes; None when the bytes do not start with the one, shortest form
      of a code point. */
  function DecodeFirst(bytes: seq<Byte>): (r: Option<(int, nat)>)
    ensures r.Some? ==> 1 <= r.value.1 <= |bytes|
  {
    if bytes == [] then None
    else if bytes[0] < 0x80 then Some((bytes[0] as int, 1))
    else if |bytes| < 2 || !IsContinuation(bytes[1]) then None
    else if 0xC0 <= bytes[0] < 0xE0 then Shortest(Bits(bytes[0], 0xC0) * 0x40 + Bits(bytes[1], 0x80), 0x80, 2)
    else if |bytes| < 3 || !IsContinuation(bytes[2]) then None
    else if 0xE0 <= bytes[0] < 0xF0 then
      Shortest(Bits(bytes[0], 0xE0) * 0x1000 + Bits(bytes[1], 0x80) * 0x40 + Bits(bytes[2], 0x80), 0x800, 3)
    else if |bytes| < 4 || !IsContinuation(bytes[3]) || bytes[0] < 0xF0 then None
    else
      Shortest(Bits(bytes[0], 0xF0) * 0x4_0000 + Bits(bytes[1], 0x80) * 0x1000 + Bits(bytes[2], 0x80) * 0x40
               + Bits(bytes[3], 0x80), 0x1_0000, 4)
  }

  /** A code point that needs as many bytes as it was given. */
  function Shortest(code: int, minimum: int, width: nat): Option<(int, nat)> {
    if code < minimum then None else Some((code, width))
  }

  function Decode(bytes: seq<Byte>): Option<seq<int>>
    decreases |bytes|
  {
    if bytes == [] then Some([])
    else
      var (code, width) :- DecodeFirst(bytes);
      var rest :- Decode(bytes[width..]);
      Some([code] + rest)
  }

  function Codes(s: string): seq<int> {
    seq(|s|, i requires 0 <= i < |s| => s[i] as int)
  }

  lemma EncodedCharIsDecoded(c: char, rest: seq<Byte>)
    ensures DecodeFirst(EncodeChar(c) + rest) == Some((c as int, |EncodeChar(c)|))
  {
    var code, bytes := c as int, EncodeChar(c) + rest;
    assert forall i :: 0 <= i < |EncodeChar(c)| ==> bytes[i] == EncodeChar(c)[i];
    assert code == code / 0x40 * 0x40 + code % 0x40;
    assert code / 0x40 == code / 0x1000 * 0x40 + code / 0x40 % 0x40;
    assert code / 0x1000 == code / 0x4_0000 * 0x40 + code / 0x1000 % 0x40;
  }

  /** Every text is read back from its bytes, code point by code point. */
  lemma {:induction false} EncodedIsDecoded(s: string)
    ensures Decode(Encode(s)) == Some(Codes(s))
  {
    if s == "" {
      assert Codes(s) == [];
    } else {
      var first, rest := EncodeChar(s[0]), Encode(s[1..]);
      EncodedCharIsDecoded(s[0], rest);
      EncodedIsDecoded(s[1..]);
      assert (first + rest)[|first|..] == rest;
      assert Decode(first + rest) == Some([s[0] as int] + Codes(s[1..]));
      assert [s[0] as int] + Codes(s[1..]) == Codes(s);
    }
  }

  lemma {:induction false} EncodeJoins(a: string, b: string)
    ensures Encode(a + b) == Encode(a) + Encode(b)
  {
    if a == "" {
      assert a + b == b;
    } else {
      assert (a + b)[1..] == a[1..] + b;
      EncodeJoins(a[1..], b);
    }
  }
}
