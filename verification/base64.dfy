/**
  The standard base64 encoding with padding, as defined in section 4 of
  RFC 4648 (Go's `base64.StdEncoding`). The proxy uses it to turn random bytes
  into a cookie secret; the decoder here exists to show that the encoding
  loses nothing.
 */
module Base64 {
  import opened Wrappers

  type byte = x: int | 0 <= x < 256

  const Pad := '='

  /** The character encoding the 6-bit value `i` (Table 1 of RFC 4648). */
  function Digit(i: int): (c: char)
    requires 0 <= i < 64
    ensures c != Pad
  {
    if i < 26 then ('A' as int + i) as char
    else if i < 52 then ('a' as int + (i - 26)) as char
    else if i < 62 then ('0' as int + (i - 52)) as char
    else if i == 62 then '+'
    else '/'
  }

  /** The 6-bit value a character encodes, or -1 for a character outside the alphabet. */
  function DigitValue(c: char): (v: int)
    ensures -1 <= v < 64
    ensures v >= 0 ==> Digit(v) == c
  {
    if 'A' <= c <= 'Z' then c as int - 'A' as int
    else if 'a' <= c <= 'z' then c as int - 'a' as int + 26
    else if '0' <= c <= '9' then c as int - '0' as int + 52
    else if c == '+' then 62
    else if c == '/' then 63
    else -1
  }

  /** Decoding a digit gives back its value. */
  lemma DigitValueOfDigit(i: int)
    requires 0 <= i < 64
    ensures DigitValue(Digit(i)) == i
  {
  }

  /** Characters that may appear in an encoding: alphabet digits and the pad. */
  predicate IsEncodingChar(c: char) {
    DigitValue(c) >= 0 || c == Pad
  }

  /** The four characters encoding a full 24-bit group. */
  function Quantum(b0: byte, b1: byte, b2: byte): string {
    [Digit(b0 / 4), Digit(b0 % 4 * 16 + b1 / 16), Digit(b1 % 16 * 4 + b2 / 64), Digit(b2 % 64)]
  }

  /**
    EncodeToString: groups of three bytes, the last group padded with `=`;
    four output characters for every started group of three input bytes.
   */
  function Encode(b: seq<byte>): (e: string)
    ensures |e| == 4 * ((|b| + 2) / 3)
    decreases |b|
  {
    if |b| == 0 then ""
    else if |b| == 1 then [Digit(b[0] / 4), Digit(b[0] % 4 * 16), Pad, Pad]
    else if |b| == 2 then [Digit(b[0] / 4), Digit(b[0] % 4 * 16 + b[1] / 16), Digit(b[1] % 16 * 4), Pad]
    else Quantum(b[0], b[1], b[2]) + Encode(b[3..])
  }

  /** The three bytes a group of four 6-bit values stands for. */
  function ByteA(v0: int, v1: int): byte
    requires 0 <= v0 < 64 && 0 <= v1 < 64
  {
    v0 * 4 + v1 / 16
  }

  function ByteB(v1: int, v2: int): byte
    requires 0 <= v1 < 64 && 0 <= v2 < 64
  {
    v1 % 16 * 16 + v2 / 4
  }

  function ByteC(v2: int, v3: int): byte
    requires 0 <= v2 < 64 && 0 <= v3 < 64
  {
    v2 % 4 * 64 + v3
  }

  /** The inverse of `Encode`; `None` for text `Encode` never produces. */
  function Decode(s: string): Option<seq<byte>>
    decreases |s|
  {
    if |s| == 0 then Some([])
    else if |s| < 4 then None
    else
      var v0, v1, v2, v3 := DigitValue(s[0]), DigitValue(s[1]), DigitValue(s[2]), DigitValue(s[3]);
      if v0 < 0 || v1 < 0 then None
      else if |s| == 4 && s[2] == Pad && s[3] == Pad then Some([ByteA(v0, v1)])
      else if |s| == 4 && v2 >= 0 && s[3] == Pad then Some([ByteA(v0, v1), ByteB(v1, v2)])
      else if v2 < 0 || v3 < 0 then None
      else
        match Decode(s[4..])
        case None => None
        case Some(tail) => Some([ByteA(v0, v1), ByteB(v1, v2), ByteC(v2, v3)] + tail)
  }

  /** The test vectors of section 10 of RFC 4648 ("", "f", "fo", ... "foobar"). */
  lemma EncodeTestVectors()
    ensures Encode([]) == ""
    ensures Encode([102]) == "Zg=="
    ensures Encode([102, 111]) == "Zm8="
    ensures Encode([102, 111, 111]) == "Zm9v"
    ensures Encode([102, 111, 111, 98]) == "Zm9vYg=="
    ensures Encode([102, 111, 111, 98, 97]) == "Zm9vYmE="
    ensures Encode([102, 111, 111, 98, 97, 114]) == "Zm9vYmFy"
  {
  }

  /** Every character of an encoding is an alphabet digit or the pad. */
  lemma {:induction false} EncodeUsesAlphabet(b: seq<byte>)
    ensures forall i :: 0 <= i < |Encode(b)| ==> IsEncodingChar(Encode(b)[i])
    decreases |b|
  {
    if |b| >= 3 {
      EncodeUsesAlphabet(b[3..]);
      var q := Quantum(b[0], b[1], b[2]);
      forall i | 0 <= i < |q|
        ensures IsEncodingChar(q[i])
      {
        DigitValueOfDigit(b[0] / 4);
        DigitValueOfDigit(b[0] % 4 * 16 + b[1] / 16);
        DigitValueOfDigit(b[1] % 16 * 4 + b[2] / 64);
        DigitValueOfDigit(b[2] % 64);
      }
      assert Encode(b) == q + Encode(b[3..]);
    } else if |b| == 1 {
      DigitValueOfDigit(b[0] / 4);
      DigitValueOfDigit(b[0] % 4 * 16);
    } else if |b| == 2 {
      DigitValueOfDigit(b[0] / 4);
      DigitValueOfDigit(b[0] % 4 * 16 + b[1] / 16);
      DigitValueOfDigit(b[1] % 16 * 4);
    }
  }

  /** The arithmetic that puts three bytes back together from their four digits. */
  lemma RegroupBytes(b0: byte, b1: byte, b2: byte)
    ensures ByteA(b0 / 4, b0 % 4 * 16 + b1 / 16) == b0
    ensures ByteB(b0 % 4 * 16 + b1 / 16, b1 % 16 * 4 + b2 / 64) == b1
    ensures ByteC(b1 % 16 * 4 + b2 / 64, b2 % 64) == b2
  {
  }

  lemma DecodeSingle(b0: byte)
    ensures Decode([Digit(b0 / 4), Digit(b0 % 4 * 16), Pad, Pad]) == Some([b0])
  {
    DigitValueOfDigit(b0 / 4);
    DigitValueOfDigit(b0 % 4 * 16);
    RegroupBytes(b0, 0, 0);
  }

  lemma DecodePair(b0: byte, b1: byte)
    ensures Decode([Digit(b0 / 4), Digit(b0 % 4 * 16 + b1 / 16), Digit(b1 % 16 * 4), Pad]) == Some([b0, b1])
  {
    DigitValueOfDigit(b0 / 4);
    DigitValueOfDigit(b0 % 4 * 16 + b1 / 16);
    DigitValueOfDigit(b1 % 16 * 4);
    RegroupBytes(b0, b1, 0);
  }

  /** A full group decodes to its three bytes and decoding carries on after it. */
  lemma DecodeQuantum(b0: byte, b1: byte, b2: byte, tail: string)
    ensures Decode(Quantum(b0, b1, b2) + tail)
            == match Decode(tail)
               case None => None
               case Some(t) => Some([b0, b1, b2] + t)
  {
    var s := Quantum(b0, b1, b2) + tail;
    assert s[4..] == tail;
    DigitValueOfDigit(b0 / 4);
    DigitValueOfDigit(b0 % 4 * 16 + b1 / 16);
    DigitValueOfDigit(b1 % 16 * 4 + b2 / 64);
    DigitValueOfDigit(b2 % 64);
    RegroupBytes(b0, b1, b2);
  }

  /** Decoding an encoding gives back the bytes: `Encode` is injective. */
  lemma {:induction false} DecodeEncode(b: seq<byte>)
    ensures Decode(Encode(b)) == Some(b)
    decreases |b|
  {
    if |b| == 1 {
      DecodeSingle(b[0]);
      assert b == [b[0]];
    } else if |b| == 2 {
      DecodePair(b[0], b[1]);
      assert b == [b[0], b[1]];
    } else if |b| >= 3 {
      DecodeQuantum(b[0], b[1], b[2], Encode(b[3..]));
      DecodeEncode(b[3..]);
      assert [b[0], b[1], b[2]] + b[3..] == b;
    }
  }
}
