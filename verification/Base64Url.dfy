/**
 Unpadded base64url (section 5 of RFC 4648), with the lenient decoder of the platform's buffers:
 left-over bits are dropped, and so is a lone last character.
 */
module Base64Url {

  type Byte = b: nat | b < 256

  type Digit = d: nat | d < 64

  predicate InAlphabet(c: char) {
    'A' <= c <= 'Z' || 'a' <= c <= 'z' || '0' <= c <= '9' || c == '-' || c == '_'
  }

  function CharOf(d: Digit): (c: char)
    ensures InAlphabet(c)
  {
    if d < 26 then ('A' as int + d) as char
    else if d < 52 then ('a' as int + d - 26) as char
    else if d < 62 then ('0' as int + d - 52) as char
    else if d == 62 then '-'
    else '_'
  }

  function DigitOf(c: char): Digit
    requires InAlphabet(c)
  {
    if 'A' <= c <= 'Z' then c as int - 'A' as int
    else if 'a' <= c <= 'z' then c as int - 'a' as int + 26
    else if '0' <= c <= '9' then c as int - '0' as int + 52
    else if c == '-' then 62
    else 63
  }

  predicate IsText(s: string) {
    forall i :: 0 <= i < |s| ==> InAlphabet(s[i])
  }

  function Encode(bytes: seq<Byte>): (s: string)
    ensures IsText(s)
    ensures |s| == 0 <==> |bytes| == 0
  {
    if |bytes| == 0 then ""
    else if |bytes| == 1 then
      [CharOf(bytes[0] / 4), CharOf(bytes[0] % 4 * 16)]
    else if |bytes| == 2 then
      [CharOf(bytes[0] / 4), CharOf(bytes[0] % 4 * 16 + bytes[1] / 16), CharOf(bytes[1] % 16 * 4)]
    else
      [CharOf(bytes[0] / 4), CharOf(bytes[0] % 4 * 16 + bytes[1] / 16),
       CharOf(bytes[1] % 16 * 4 + bytes[2] / 64), CharOf(bytes[2] % 64)]
      + Encode(bytes[3..])
  }

  function Byte0(a: Digit, b: Digit): Byte { a * 4 + b / 16 }

  function Byte1(b: Digit, c: Digit): Byte { b % 16 * 16 + c / 4 }

  function Byte2(c: Digit, d: Digit): Byte { c % 4 * 64 + d }

  function Decode(s: string): seq<Byte>
    requires IsText(s)
  {
    if |s| < 2 then []
    else
      var a, b := DigitOf(s[0]), DigitOf(s[1]);
      if |s| == 2 then [Byte0(a, b)]
      else
        var c := DigitOf(s[2]);
        if |s| == 3 then [Byte0(a, b), Byte1(b, c)]
        else [Byte0(a, b), Byte1(b, c), Byte2(c, DigitOf(s[3]))] + Decode(s[4..])
  }

  lemma {:induction false} DigitRoundTrip(d: Digit)
    ensures DigitOf(CharOf(d)) == d
  {
  }

  lemma {:induction false} GroupRoundTrip(x: Byte, y: Byte, z: Byte)
    ensures Byte0(x / 4, x % 4 * 16 + y / 16) == x
    ensures Byte0(x / 4, x % 4 * 16) == x
    ensures Byte1(x % 4 * 16 + y / 16, y % 16 * 4 + z / 64) == y
    ensures Byte1(x % 4 * 16 + y / 16, y % 16 * 4) == y
    ensures Byte2(y % 16 * 4 + z / 64, z % 64) == z
  {
  }

  /** Four characters decode on their own. */
  lemma {:induction false} DecodesFirst(four: string, rest: string)
    requires |four| == 4 && IsText(four) && IsText(rest)
    ensures IsText(four + rest)
    ensures Decode(four + rest)
         == [Byte0(DigitOf(four[0]), DigitOf(four[1])), Byte1(DigitOf(four[1]), DigitOf(four[2])),
             Byte2(DigitOf(four[2]), DigitOf(four[3]))] + Decode(rest)
  {
    assert (four + rest)[4..] == rest;
  }

  lemma {:induction false} ShortRoundTrip(bytes: seq<Byte>)
    requires |bytes| < 3
    ensures Decode(Encode(bytes)) == bytes
  {
    if |bytes| > 0 {
      var x, y := bytes[0], if |bytes| > 1 then bytes[1] else 0;
      GroupRoundTrip(x, y, 0);
      DigitRoundTrip(x / 4);
      DigitRoundTrip(x % 4 * 16 + y / 16);
      DigitRoundTrip(y % 16 * 4);
    }
  }

  /** Decoding gives back the encoded bytes, whatever they are. */
  lemma {:induction false} RoundTrip(bytes: seq<Byte>)
    ensures Decode(Encode(bytes)) == bytes
  {
    if |bytes| < 3 {
      ShortRoundTrip(bytes);
    } else {
      var x, y, z := bytes[0], bytes[1], bytes[2];
      GroupRoundTrip(x, y, z);
      var a: Digit, b: Digit, c: Digit, d: Digit := x / 4, x % 4 * 16 + y / 16, y % 16 * 4 + z / 64, z % 64;
      DigitRoundTrip(a);
      DigitRoundTrip(b);
      DigitRoundTrip(c);
      DigitRoundTrip(d);
      DecodesFirst([CharOf(a), CharOf(b), CharOf(c), CharOf(d)], Encode(bytes[3..]));
      RoundTrip(bytes[3..]);
      assert [x, y, z] + bytes[3..] == bytes;
    }
  }

  /** The text never holds the separator. */
  lemma {:induction false} HasNoDot(bytes: seq<Byte>)
    ensures '.' !in Encode(bytes)
  {
    assert forall c :: InAlphabet(c) ==> c != '.';
  }
}
