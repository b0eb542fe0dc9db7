/** str.encode() and bytes.decode(): UTF-8 (RFC 3629), strict. */
module Utf8 {
  import opened Options

  type Byte = b: int | 0 <= b < 256

  function EncodeChar(c: char): (bytes: seq<Byte>)
    ensures 1 <= |bytes| <= 4
  {
    var n := c as int;
    if n < 0x80 then [n]
    else if n < 0x800 then [0xC0 + n / 64, 0x80 + n % 64]
    else if n < 0x10000 then [0xE0 + n / 64 / 64, 0x80 + n / 64 % 64, 0x80 + n % 64]
    else [0xF0 + n / 64 / 64 / 64, 0x80 + n / 64 / 64 % 64, 0x80 + n / 64 % 64, 0x80 + n % 64]
  }

  function Encode(s: string): seq<Byte> {
    if s == "" then [] else EncodeChar(s[0]) + Encode(s[1..])
  }

  predicate Continues(b: Byte) {
    0x80 <= b < 0xC0
  }

  function Scalar(n: int, least: nat): Option<char> {
    if least <= n < 0xD800 || (0xE000 <= n < 0x110000 && least <= n) then Some(n as char) else None
  }

  /** The six bits of a continuation byte. */
  function Low(b: Byte): int {
    b as int % 64
  }

  /** The first character and its width. Overlong forms and surrogates are errors. */
  function DecodeChar(b: seq<Byte>): (r: Option<(char, nat)>)
    requires b != []
    ensures r.Some? ==> 1 <= r.value.1 <= |b|
  {
    var lead: int := b[0];
    if lead < 0x80 then Some((lead as char, 1))
    else if 0xC0 <= lead < 0xE0 && |b| >= 2 && Continues(b[1]) then
      Width(Scalar((lead - 0xC0) * 64 + Low(b[1]), 0x80), 2)
    else if 0xE0 <= lead < 0xF0 && |b| >= 3 && Continues(b[1]) && Continues(b[2]) then
      Width(Scalar((lead - 0xE0) * 4096 + Low(b[1]) * 64 + Low(b[2]), 0x800), 3)
    else if 0xF0 <= lead < 0xF8 && |b| >= 4 && Continues(b[1]) && Continues(b[2]) && Continues(b[3]) then
      Width(Scalar((lead - 0xF0) * 262144 + Low(b[1]) * 4096 + Low(b[2]) * 64 + Low(b[3]), 0x10000), 4)
    else None
  }

  function Width(c: Option<char>, width: nat): (r: Option<(char, nat)>)
    ensures r.Some? <==> c.Some?
    ensures r.Some? ==> r.value == (c.value, width)
  {
    if c.Some? then Some((c.value, width)) else None
  }

  /** None for UnicodeDecodeError. */
  function Decode(b: seq<Byte>): Option<string> {
    if b == [] then Some("")
    else
      var first := DecodeChar(b);
      if first.None? then None
      else
        var rest := Decode(b[first.value.1..]);
        if rest.None? then None else Some([first.value.0] + rest.value)
  }

  lemma Digits(n: nat)
    ensures n == n / 64 * 64 + n % 64
    ensures n == n / 64 / 64 * 4096 + n / 64 % 64 * 64 + n % 64
    ensures n == n / 64 / 64 / 64 * 262144 + n / 64 / 64 % 64 * 4096 + n / 64 % 64 * 64 + n % 64
  {
    var q := n / 64;
    var p := q / 64;
    assert q == p * 64 + q % 64 && p == p / 64 * 64 + p % 64;
  }

  lemma DecodeEncodedChar(c: char, tail: seq<Byte>)
    ensures DecodeChar(EncodeChar(c) + tail) == Some((c, |EncodeChar(c)|))
  {
    var n := c as int;
    var b := EncodeChar(c) + tail;
    Digits(n);
    assert forall i | 0 <= i < |EncodeChar(c)| :: b[i] == EncodeChar(c)[i];
    var low, mid, high := n % 64, n / 64 % 64, n / 64 / 64 % 64;
    if n < 0x80 {
    } else if n < 0x800 {
      assert Low(b[1]) == low;
    } else if n < 0x10000 {
      assert Low(b[1]) == mid && Low(b[2]) == low;
    } else {
      assert Low(b[1]) == high && Low(b[2]) == mid && Low(b[3]) == low;
    }
  }

  /** Decoding undoes encoding, for every text. */
  lemma {:induction false} DecodeUndoesEncode(s: string)
    ensures Decode(Encode(s)) == Some(s)
  {
    if s != "" {
      DecodeEncodedChar(s[0], Encode(s[1..]));
      assert Encode(s)[|EncodeChar(s[0])|..] == Encode(s[1..]);
      DecodeUndoesEncode(s[1..]);
      assert [s[0]] + s[1..] == s;
    }
  }
}
