/** Base 64 encoding with the standard alphabet and `=` padding, as defined in section 4
    of RFC 4648: what Python's `base64.b64encode` produces for the Authorization header. */
module Base64 {
  import opened Wrappers

  newtype byte = x: int | 0 <= x < 256

  /** The 64-character alphabet of Table 1 of RFC 4648. */
  function EncodeChar(v: int): (c: char)
    requires 0 <= v < 64
  {
    if v < 26 then ('A' as int + v) as char
    else if v < 52 then ('a' as int + v - 26) as char
    else if v < 62 then ('0' as int + v - 52) as char
    else if v == 62 then '+'
    else '/'
  }

  /** The value a character of the alphabet stands for; None for any other character,
      including the pad character. */
  function CharValue(c: char): (r: Option<int>)
    ensures r.Some? ==> 0 <= r.value < 64 && EncodeChar(r.value) == c
  {
    if 'A' <= c <= 'Z' then Some(c as int - 'A' as int)
    else if 'a' <= c <= 'z' then Some(c as int - 'a' as int + 26)
    else if '0' <= c <= '9' then Some(c as int - '0' as int + 52)
    else if c == '+' then Some(62)
    else if c == '/' then Some(63)
    else None
  }

  lemma CharValueOfEncodeChar(v: int)
    requires 0 <= v < 64
    ensures CharValue(EncodeChar(v)) == Some(v)
  {
  }

  /** Encodes each 24-bit group as four characters; a final group of one or two bytes is
      padded with `==` or `=` (section 4 of RFC 4648). */
  function Encode(b: seq<byte>): (r: string)
    ensures |r| == 4 * ((|b| + 2) / 3)
    decreases |b|
  {
    if |b| == 0 then ""
    else if |b| == 1 then
      [EncodeChar(b[0] as int / 4), EncodeChar(b[0] as int % 4 * 16), '=', '=']
    else if |b| == 2 then
      [EncodeChar(b[0] as int / 4), EncodeChar(b[0] as int % 4 * 16 + b[1] as int / 16),
       EncodeChar(b[1] as int % 16 * 4), '=']
    else EncodeGroup(b[0], b[1], b[2]) + Encode(b[3..])
  }

  /** Decodes one final group with padding, or None. */
  function DecodeLast(g: string): Option<seq<byte>>
    requires |g| == 4
  {
    var v0, v1 := CharValue(g[0]), CharValue(g[1]);
    if v0.None? || v1.None? then None
    else if g[2] == '=' && g[3] == '=' then
      if v1.value % 16 == 0 then Some([(v0.value * 4 + v1.value / 16) as byte]) else None
    else if g[3] == '=' then
      var v2 := CharValue(g[2]);
      if v2.None? || v2.value % 4 != 0 then None
      else Some([(v0.value * 4 + v1.value / 16) as byte, (v1.value % 16 * 16 + v2.value / 4) as byte])
    else None
  }

  /** Decodes one full group of four alphabet characters. */
  function DecodeGroup(g: string): Option<seq<byte>>
    requires |g| == 4
  {
    var v0, v1, v2, v3 := CharValue(g[0]), CharValue(g[1]), CharValue(g[2]), CharValue(g[3]);
    if v0.None? || v1.None? || v2.None? || v3.None? then None
    else Some([(v0.value * 4 + v1.value / 16) as byte,
               (v1.value % 16 * 16 + v2.value / 4) as byte,
               (v2.value % 4 * 64 + v3.value) as byte])
  }

  /** The canonical decoder: the length is a multiple of four, only the last group may be
      padded, and the bits a pad leaves over are zero. */
  function Decode(s: string): Option<seq<byte>>
    decreases |s|
  {
    if |s| == 0 then Some([])
    else if |s| < 4 then None
    else if |s| == 4 && s[3] == '=' then DecodeLast(s)
    else match DecodeGroup(s[..4])
      case None => None
      case Some(g) =>
        match Decode(s[4..])
        case None => None
        case Some(rest) => Some(g + rest)
  }

  /** The four characters of a full group give back its three bytes. */
  lemma GroupRoundTrip(x: byte, y: byte, z: byte)
    ensures DecodeGroup(EncodeGroup(x, y, z)) == Some([x, y, z])
  {
    var a, b, c, d := x as int / 4, x as int % 4 * 16 + y as int / 16, y as int % 16 * 4 + z as int / 64, z as int % 64;
    CharValueOfEncodeChar(a);
    CharValueOfEncodeChar(b);
    CharValueOfEncodeChar(c);
    CharValueOfEncodeChar(d);
    assert a * 4 + b / 16 == x as int;
    assert b % 16 * 16 + c / 4 == y as int;
    assert c % 4 * 64 + d == z as int;
  }

  /** A final group padded with `==` gives back its one byte. */
  lemma OneRoundTrip(x: byte)
    ensures DecodeLast([EncodeChar(x as int / 4), EncodeChar(x as int % 4 * 16), '=', '=']) == Some([x])
  {
    CharValueOfEncodeChar(x as int / 4);
    CharValueOfEncodeChar(x as int % 4 * 16);
  }

  /** A final group padded with `=` gives back its two bytes. */
  lemma TwoRoundTrip(x: byte, y: byte)
    ensures DecodeLast([EncodeChar(x as int / 4), EncodeChar(x as int % 4 * 16 + y as int / 16),
                        EncodeChar(y as int % 16 * 4), '=']) == Some([x, y])
  {
    var a, b, c := x as int / 4, x as int % 4 * 16 + y as int / 16, y as int % 16 * 4;
    CharValueOfEncodeChar(a);
    CharValueOfEncodeChar(b);
    CharValueOfEncodeChar(c);
    assert a * 4 + b / 16 == x as int;
    assert b % 16 * 16 + c / 4 == y as int;
  }

  /** The characters of a full group of three bytes. */
  function EncodeGroup(x: byte, y: byte, z: byte): (g: string)
    ensures |g| == 4 && g[3] != '='
  {
    [EncodeChar(x as int / 4), EncodeChar(x as int % 4 * 16 + y as int / 16),
     EncodeChar(y as int % 16 * 4 + z as int / 64), EncodeChar(z as int % 64)]
  }

  /** Decoding a full group followed by more text. */
  lemma DecodeStep(g: string, rest: string, x: seq<byte>, y: seq<byte>)
    requires |g| == 4 && g[3] != '=' && DecodeGroup(g) == Some(x) && Decode(rest) == Some(y)
    ensures Decode(g + rest) == Some(x + y)
  {
    var s := g + rest;
    assert s[..4] == g && s[4..] == rest;
  }

  /** Decoding undoes encoding of one or two bytes. */
  lemma DecodeEncodeShort(b: seq<byte>)
    requires 1 <= |b| <= 2
    ensures Decode(Encode(b)) == Some(b)
  {
    if |b| == 1 {
      OneRoundTrip(b[0]);
      assert [b[0]] == b;
    } else {
      TwoRoundTrip(b[0], b[1]);
      assert [b[0], b[1]] == b;
    }
  }

  /** Decoding undoes encoding, for every byte string. */
  lemma {:induction false} DecodeEncode(b: seq<byte>)
    ensures Decode(Encode(b)) == Some(b)
    decreases |b|
  {
    if 1 <= |b| <= 2 {
      DecodeEncodeShort(b);
    } else if |b| >= 3 {
      var g, rest := EncodeGroup(b[0], b[1], b[2]), Encode(b[3..]);
      assert Encode(b) == g + rest;
      GroupRoundTrip(b[0], b[1], b[2]);
      DecodeEncode(b[3..]);
      DecodeStep(g, rest, [b[0], b[1], b[2]], b[3..]);
      assert [b[0], b[1], b[2]] + b[3..] == b;
    }
  }

  /** Encoded text uses only the alphabet and the pad character. */
  lemma {:induction false} EncodeAlphabet(b: seq<byte>)
    ensures forall i :: 0 <= i < |Encode(b)| ==> CharValue(Encode(b)[i]).Some? || Encode(b)[i] == '='
    decreases |b|
  {
    if |b| >= 1 {
      CharValueOfEncodeChar(b[0] as int / 4);
    }
    if |b| == 1 {
      CharValueOfEncodeChar(b[0] as int % 4 * 16);
    } else if |b| == 2 {
      CharValueOfEncodeChar(b[0] as int % 4 * 16 + b[1] as int / 16);
      CharValueOfEncodeChar(b[1] as int % 16 * 4);
    } else if |b| >= 3 {
      CharValueOfEncodeChar(b[0] as int % 4 * 16 + b[1] as int / 16);
      CharValueOfEncodeChar(b[1] as int % 16 * 4 + b[2] as int / 64);
      CharValueOfEncodeChar(b[2] as int % 64);
      EncodeAlphabet(b[3..]);
    }
  }
}
