/**
 * The standard, padded base64 encoding of section 4 of RFC 4648, which
 * encoding/base64's StdEncoding implements: the fulfillment body travels to
 * the browser in this form. Decode is the reverse direction, used here to
 * state that the encoding loses nothing.
 */
module Base64 {
  import opened Wrappers
  import opened Http

  /** The character for a 6-bit value, from the alphabet of Table 1 of RFC 4648. */
  function EncodeSextet(n: int): char
    requires 0 <= n < 64
  {
    if n < 26 then ('A' as int + n) as char
    else if n < 52 then ('a' as int + (n - 26)) as char
    else if n < 62 then ('0' as int + (n - 52)) as char
    else if n == 62 then '+'
    else '/'
  }

  /** The 6-bit value of an alphabet character; None for any other character, '=' included. */
  function DecodeSextet(c: char): (r: Option<int>)
    ensures r.Some? ==> 0 <= r.value < 64 && EncodeSextet(r.value) == c
    ensures c == '=' ==> r.None?
  {
    if 'A' <= c <= 'Z' then Some(c as int - 'A' as int)
    else if 'a' <= c <= 'z' then Some(c as int - 'a' as int + 26)
    else if '0' <= c <= '9' then Some(c as int - '0' as int + 52)
    else if c == '+' then Some(62)
    else if c == '/' then Some(63)
    else None
  }

  /** Three bytes become four characters, most significant bits first. */
  function EncodeGroup(b0: byte, b1: byte, b2: byte): string
  {
    var x0, x1, x2 := b0 as int, b1 as int, b2 as int;
    [EncodeSextet(x0 / 4), EncodeSextet(x0 % 4 * 16 + x1 / 16),
     EncodeSextet(x1 % 16 * 4 + x2 / 64), EncodeSextet(x2 % 64)]
  }

  /** base64.StdEncoding.EncodeToString: a final group of one or two bytes is padded with '='. */
  function Encode(b: seq<byte>): (s: string)
    ensures |s| == (|b| + 2) / 3 * 4
    decreases |b|
  {
    if |b| == 0 then ""
    else if |b| == 1 then
      var x0 := b[0] as int;
      [EncodeSextet(x0 / 4), EncodeSextet(x0 % 4 * 16), '=', '=']
    else if |b| == 2 then
      var x0, x1 := b[0] as int, b[1] as int;
      [EncodeSextet(x0 / 4), EncodeSextet(x0 % 4 * 16 + x1 / 16), EncodeSextet(x1 % 16 * 4), '=']
    else EncodeGroup(b[0], b[1], b[2]) + Encode(b[3..])
  }

  /** Four characters back to their bytes; padding is accepted only in the last quantum. */
  function DecodeQuantum(q: string, last: bool): Option<seq<byte>>
    requires |q| == 4
  {
    var a, b, c, d := DecodeSextet(q[0]), DecodeSextet(q[1]), DecodeSextet(q[2]), DecodeSextet(q[3]);
    if a.None? || b.None? then None
    else if last && q[2] == '=' && q[3] == '=' then
      Some([(a.value * 4 + b.value / 16) as byte])
    else if last && q[3] == '=' then
      if c.None? then None
      else Some([(a.value * 4 + b.value / 16) as byte, (b.value % 16 * 16 + c.value / 4) as byte])
    else if c.None? || d.None? then None
    else Some([(a.value * 4 + b.value / 16) as byte,
               (b.value % 16 * 16 + c.value / 4) as byte,
               (c.value % 4 * 64 + d.value) as byte])
  }

  /** Decoding of padded base64; None when the text is not a whole number of valid quanta. */
  function Decode(s: string): Option<seq<byte>>
    decreases |s|
  {
    if |s| == 0 then Some([])
    else if |s| < 4 then None
    else
      var q := DecodeQuantum(s[..4], |s| == 4);
      if q.None? then None
      else if |s| == 4 then q
      else
        match Decode(s[4..])
        case None => None
        case Some(rest) => Some(q.value + rest)
  }

  lemma SextetRoundTrip(n: int)
    requires 0 <= n < 64
    ensures DecodeSextet(EncodeSextet(n)) == Some(n)
  {
  }

  /** A full group decodes to the three bytes it came from. */
  lemma GroupRoundTrip(b0: byte, b1: byte, b2: byte, last: bool)
    ensures DecodeQuantum(EncodeGroup(b0, b1, b2), last) == Some([b0, b1, b2])
  {
    var x0, x1, x2 := b0 as int, b1 as int, b2 as int;
    var c0, c1, c2, c3 := x0 / 4, x0 % 4 * 16 + x1 / 16, x1 % 16 * 4 + x2 / 64, x2 % 64;
    SextetRoundTrip(c0);
    SextetRoundTrip(c1);
    SextetRoundTrip(c2);
    SextetRoundTrip(c3);
    assert c1 / 16 == x0 % 4 && c1 % 16 == x1 / 16;
    assert c2 / 4 == x1 % 16 && c2 % 4 == x2 / 64;
    assert c0 * 4 + c1 / 16 == x0;
    assert c1 % 16 * 16 + c2 / 4 == x1;
    assert c2 % 4 * 64 + c3 == x2;
  }

  /** A final single byte, padded with "==", decodes to that byte. */
  lemma TailOneRoundTrip(b: seq<byte>)
    requires |b| == 1
    ensures Decode(Encode(b)) == Some(b)
  {
    var s := Encode(b);
    var x0 := b[0] as int;
    SextetRoundTrip(x0 / 4);
    SextetRoundTrip(x0 % 4 * 16);
    assert s[..4] == s && s[2] == '=' && s[3] == '=';
    assert DecodeSextet(s[0]) == Some(x0 / 4) && DecodeSextet(s[1]) == Some(x0 % 4 * 16);
    assert (x0 / 4 * 4 + x0 % 4 * 16 / 16) as byte == b[0];
    assert DecodeQuantum(s, true) == Some([b[0]]);
    assert [b[0]] == b;
  }

  /** A final pair of bytes, padded with "=", decodes to those bytes. */
  lemma TailTwoRoundTrip(b: seq<byte>)
    requires |b| == 2
    ensures Decode(Encode(b)) == Some(b)
  {
    var s := Encode(b);
    var x0, x1 := b[0] as int, b[1] as int;
    var c1 := x0 % 4 * 16 + x1 / 16;
    SextetRoundTrip(x0 / 4);
    SextetRoundTrip(c1);
    SextetRoundTrip(x1 % 16 * 4);
    assert s[..4] == s;
    assert c1 / 16 == x0 % 4 && c1 % 16 == x1 / 16;
    assert x0 / 4 * 4 + c1 / 16 == x0;
    assert c1 % 16 * 16 + x1 % 16 * 4 / 4 == x1;
    assert DecodeQuantum(s, true) == Some([b[0], b[1]]);
    assert [b[0], b[1]] == b;
  }

  /** Decoding the encoding of any byte sequence gives that byte sequence back. */
  lemma {:induction false} DecodeEncode(b: seq<byte>)
    ensures Decode(Encode(b)) == Some(b)
    decreases |b|
  {
    if |b| == 1 {
      TailOneRoundTrip(b);
    } else if |b| == 2 {
      TailTwoRoundTrip(b);
    } else if |b| >= 3 {
      var s := Encode(b);
      var g := EncodeGroup(b[0], b[1], b[2]);
      var rest := Encode(b[3..]);
      assert s == g + rest;
      assert s[..4] == g;
      GroupRoundTrip(b[0], b[1], b[2], |s| == 4);
      if |s| == 4 {
        assert b == [b[0], b[1], b[2]];
      } else {
        assert s[4..] == rest;
        DecodeEncode(b[3..]);
        assert [b[0], b[1], b[2]] + b[3..] == b;
      }
    }
  }
}
