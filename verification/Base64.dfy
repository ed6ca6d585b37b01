/** The standard base64 encoding with padding, section 4 of RFC 4648: what the pull
    endpoint applies to every payload it does not deliver inline. */
module Base64 {
  import opened Prelude

  type Sextet = n: int | 0 <= n < 64

  function Symbol(n: Sextet): char {
    if n < 26 then ('A' as int + n) as char
    else if n < 52 then ('a' as int + n - 26) as char
    else if n < 62 then ('0' as int + n - 52) as char
    else if n == 62 then '+'
    else '/'
  }

  function SymbolValue(c: char): Option<Sextet> {
    if 'A' <= c <= 'Z' then Some(c as int - 'A' as int)
    else if 'a' <= c <= 'z' then Some(c as int - 'a' as int + 26)
    else if '0' <= c <= '9' then Some(c as int - '0' as int + 52)
    else if c == '+' then Some(62)
    else if c == '/' then Some(63)
    else None
  }

  function FullGroup(x: Byte, y: Byte, z: Byte): string {
    [Symbol(x / 4), Symbol(x % 4 * 16 + y / 16), Symbol(y % 16 * 4 + z / 64), Symbol(z % 64)]
  }

  /** Three bytes become four symbols; a short last group is padded with '='. */
  function Encode(bytes: seq<Byte>): string {
    if bytes == [] then ""
    else if |bytes| == 1 then
      [Symbol(bytes[0] / 4), Symbol(bytes[0] % 4 * 16), '=', '=']
    else if |bytes| == 2 then
      [Symbol(bytes[0] / 4), Symbol(bytes[0] % 4 * 16 + bytes[1] / 16), Symbol(bytes[1] % 16 * 4), '=']
    else FullGroup(bytes[0], bytes[1], bytes[2]) + Encode(bytes[3..])
  }

  function DecodeGroup(a: Sextet, b: Sextet, c: Sextet, d: Sextet): seq<Byte> {
    [a * 4 + b / 16, b % 16 * 16 + c / 4, c % 4 * 64 + d]
  }

  /** Accepts whole groups of four; padding only in the last one. */
  function Decode(text: string): Option<seq<Byte>> {
    if text == "" then Some([])
    else if |text| < 4 then None
    else
      var a, b := SymbolValue(text[0]), SymbolValue(text[1]);
      var c, d := SymbolValue(text[2]), SymbolValue(text[3]);
      if a.None? || b.None? then None
      else if |text| == 4 && text[2] == '=' && text[3] == '=' then
        Some(DecodeGroup(a.value, b.value, 0, 0)[..1])
      else if c.None? then None
      else if |text| == 4 && text[3] == '=' then
        Some(DecodeGroup(a.value, b.value, c.value, 0)[..2])
      else if d.None? then None
      else
        var rest := Decode(text[4..]);
        if rest.None? then None else Some(DecodeGroup(a.value, b.value, c.value, d.value) + rest.value)
  }

  lemma SymbolRoundTrip(n: Sextet)
    ensures SymbolValue(Symbol(n)) == Some(n) && Symbol(n) != '='
  {
  }

  lemma GroupRoundTrip(x: Byte, y: Byte, z: Byte)
    ensures DecodeGroup(x / 4, x % 4 * 16 + y / 16, y % 16 * 4 + z / 64, z % 64) == [x, y, z]
  {
    var a: Sextet, b: Sextet := x / 4, x % 4 * 16 + y / 16;
    var c: Sextet, d: Sextet := y % 16 * 4 + z / 64, z % 64;
    assert b / 16 == x % 4 && b % 16 == y / 16;
    assert c / 4 == y % 16 && c % 4 == z / 64;
    assert DecodeGroup(a, b, c, d) == [a * 4 + b / 16, b % 16 * 16 + c / 4, c % 4 * 64 + d];
  }

  lemma OneByte(x: Byte)
    ensures Decode(Encode([x])) == Some([x])
  {
    SymbolRoundTrip(x / 4);
    SymbolRoundTrip(x % 4 * 16);
    GroupRoundTrip(x, 0, 0);
    assert DecodeGroup(x / 4, x % 4 * 16, 0, 0)[..1] == [x];
  }

  lemma TwoBytes(x: Byte, y: Byte)
    ensures Decode(Encode([x, y])) == Some([x, y])
  {
    SymbolRoundTrip(x / 4);
    SymbolRoundTrip(x % 4 * 16 + y / 16);
    SymbolRoundTrip(y % 16 * 4);
    GroupRoundTrip(x, y, 0);
    assert DecodeGroup(x / 4, x % 4 * 16 + y / 16, y % 16 * 4, 0)[..2] == [x, y];
  }

  lemma ThreeBytes(x: Byte, y: Byte, z: Byte, text: string)
    requires Decode(text).Some?
    ensures Decode(FullGroup(x, y, z) + text) == Some([x, y, z] + Decode(text).value)
  {
    SymbolRoundTrip(x / 4);
    SymbolRoundTrip(x % 4 * 16 + y / 16);
    SymbolRoundTrip(y % 16 * 4 + z / 64);
    SymbolRoundTrip(z % 64);
    GroupRoundTrip(x, y, z);
    assert (FullGroup(x, y, z) + text)[4..] == text;
  }

  lemma OnlyEmptyEncodesToEmpty(bytes: seq<Byte>)
    ensures Encode(bytes) == "" <==> bytes == []
  {
  }

  /** Decoding gives the original bytes back. */
  lemma {:induction false} RoundTrip(bytes: seq<Byte>)
    ensures Decode(Encode(bytes)) == Some(bytes)
  {
    if |bytes| == 1 {
      OneByte(bytes[0]);
      assert bytes == [bytes[0]];
    } else if |bytes| == 2 {
      TwoBytes(bytes[0], bytes[1]);
      assert bytes == [bytes[0], bytes[1]];
    } else if |bytes| > 2 {
      var rest := bytes[3..];
      RoundTrip(rest);
      ThreeBytes(bytes[0], bytes[1], bytes[2], Encode(rest));
      assert [bytes[0], bytes[1], bytes[2]] + rest == bytes;
    }
  }
}
