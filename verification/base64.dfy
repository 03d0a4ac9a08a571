/**
 * The base64 alphabet of RFC 4648 (section 4) and an encoder for whole
 * three-byte groups (no padding): enough to say which bytes the handler's two
 * NTLM markers stand for.
 */
module Base64 {

  newtype Byte = x: int | 0 <= x < 256

  /** A character of the alphabet of section 4 of RFC 4648. */
  predicate IsBase64Char(c: char) {
    'A' <= c <= 'Z' || 'a' <= c <= 'z' || '0' <= c <= '9' || c == '+' || c == '/'
  }

  /** The six-bit value an alphabet character stands for (the decoding table). */
  function DigitValue(c: char): (v: int)
    requires IsBase64Char(c)
  {
    if 'A' <= c <= 'Z' then c as int - 'A' as int
    else if 'a' <= c <= 'z' then c as int - 'a' as int + 26
    else if '0' <= c <= '9' then c as int - '0' as int + 52
    else if c == '+' then 62 else 63
  }

  /** The character for a six-bit value (the encoding table). */
  function Digit(v: int): (c: char)
    requires 0 <= v < 64
  {
    if v < 26 then ('A' as int + v) as char
    else if v < 52 then ('a' as int + (v - 26)) as char
    else if v < 62 then ('0' as int + (v - 52)) as char
    else if v == 62 then '+' else '/'
  }

  /** Every six-bit value has an alphabet character, and decoding it gives the value back. */
  lemma DigitRoundTrip(v: int)
    requires 0 <= v < 64
    ensures IsBase64Char(Digit(v)) && DigitValue(Digit(v)) == v
  {
  }

  /** Three bytes as four characters, six bits each, most significant first. */
  function EncodeGroup(b0: Byte, b1: Byte, b2: Byte): (r: string)
    ensures |r| == 4
  {
    [ Digit(b0 as int / 4),
      Digit(b0 as int % 4 * 16 + b1 as int / 16),
      Digit(b1 as int % 16 * 4 + b2 as int / 64),
      Digit(b2 as int % 64) ]
  }

  /** Base64 of `b`, four characters for every three bytes. */
  function EncodeGroups(b: seq<Byte>): (r: string)
    requires |b| % 3 == 0
    ensures |r| == |b| / 3 * 4
    decreases |b|
  {
    if |b| == 0 then ""
    else EncodeGroup(b[0], b[1], b[2]) + EncodeGroups(b[3..])
  }

  /** Every character of an encoding is in the alphabet. */
  lemma {:induction false} EncodeGroupsAlphabet(b: seq<Byte>)
    requires |b| % 3 == 0
    ensures forall i :: 0 <= i < |EncodeGroups(b)| ==> IsBase64Char(EncodeGroups(b)[i])
    decreases |b|
  {
    if |b| > 0 {
      EncodeGroupsAlphabet(b[3..]);
      DigitRoundTrip(b[0] as int / 4);
      DigitRoundTrip(b[0] as int % 4 * 16 + b[1] as int / 16);
      DigitRoundTrip(b[1] as int % 16 * 4 + b[2] as int / 64);
      DigitRoundTrip(b[2] as int % 64);
    }
  }

  /** Nine bytes encode as their three groups, in order. */
  lemma EncodeNineBytes(b: seq<Byte>)
    requires |b| == 9
    ensures EncodeGroups(b) == EncodeGroup(b[0], b[1], b[2]) + EncodeGroup(b[3], b[4], b[5])
      + EncodeGroup(b[6], b[7], b[8])
  {
    assert b[3..][3..][3..] == [];
    assert EncodeGroups(b[3..][3..]) == EncodeGroup(b[6], b[7], b[8]) + EncodeGroups([]);
    assert EncodeGroups(b[3..]) == EncodeGroup(b[3], b[4], b[5]) + EncodeGroups(b[3..][3..]);
  }
}
