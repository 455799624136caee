/** Base64 with the standard alphabet and `=` padding (section 4 of RFC 4648),
    as Python's `base64.b64encode` produces it. The decoder is the partner
    that shows the encoding loses nothing. */
module Base64 {
  import opened Base

  /** A 6-bit group, the unit one Base64 character carries. */
  type Sextet = x: int | 0 <= x < 64

  /** The standard alphabet: `A`-`Z`, `a`-`z`, `0`-`9`, `+`, `/`. */
  function Digit(i: Sextet): (c: char)
    ensures c != '='
  {
    if i < 26 then ('A' as int + i) as char
    else if i < 52 then ('a' as int + (i - 26)) as char
    else if i < 62 then ('0' as int + (i - 52)) as char
    else if i == 62 then '+'
    else '/'
  }

  /** The alphabet position of a character, if it is in the alphabet. */
  function DigitValue(c: char): (r: Option<Sextet>)
    ensures r.Some? ==> Digit(r.value) == c
  {
    if 'A' <= c <= 'Z' then Some(c as int - 'A' as int)
    else if 'a' <= c <= 'z' then Some(c as int - 'a' as int + 26)
    else if '0' <= c <= '9' then Some(c as int - '0' as int + 52)
    else if c == '+' then Some(62)
    else if c == '/' then Some(63)
    else None
  }

  lemma DigitValueOfDigit(i: Sextet)
    ensures DigitValue(Digit(i)) == Some(i)
  {
  }

  predicate IsDigit(c: char) { DigitValue(c).Some? }

  // The three bytes a, b, c are cut into four sextets:
  //   a/4 | (a%4)*16 + b/16 | (b%16)*4 + c/64 | c%64

  function EncodeFull(a: Byte, b: Byte, c: Byte): string
  {
    [Digit(a as int / 4), Digit(a as int % 4 * 16 + b as int / 16),
     Digit(b as int % 16 * 4 + c as int / 64), Digit(c as int % 64)]
  }

  function EncodeTwo(a: Byte, b: Byte): string
  {
    [Digit(a as int / 4), Digit(a as int % 4 * 16 + b as int / 16),
     Digit(b as int % 16 * 4), '=']
  }

  function EncodeOne(a: Byte): string
  {
    [Digit(a as int / 4), Digit(a as int % 4 * 16), '=', '=']
  }

  /** `base64.b64encode(data).decode()`. */
  function Encode(data: Bytes): (r: string)
    ensures |r| == 4 * ((|data| + 2) / 3)
    ensures |data| == 0 <==> |r| == 0
  {
    if |data| == 0 then ""
    else if |data| == 1 then EncodeOne(data[0])
    else if |data| == 2 then EncodeTwo(data[0], data[1])
    else EncodeFull(data[0], data[1], data[2]) + Encode(data[3..])
  }

  /** The test vectors of section 10 of RFC 4648: the prefixes of `foobar`. */
  lemma RfcTestVectors()
    ensures Encode([]) == ""
    ensures Encode([0x66]) == "Zg=="
    ensures Encode([0x66, 0x6F]) == "Zm8="
    ensures Encode([0x66, 0x6F, 0x6F]) == "Zm9v"
    ensures Encode([0x66, 0x6F, 0x6F, 0x62]) == "Zm9vYg=="
    ensures Encode([0x66, 0x6F, 0x6F, 0x62, 0x61]) == "Zm9vYmE="
    ensures Encode([0x66, 0x6F, 0x6F, 0x62, 0x61, 0x72]) == "Zm9vYmFy"
  {
  }

  /** Every character of an encoding is an alphabet digit or padding, and
      padding only occurs among the last two characters. */
  lemma {:induction false} EncodeAlphabet(data: Bytes)
    ensures forall k :: 0 <= k < |Encode(data)| ==>
      IsDigit(Encode(data)[k]) || (Encode(data)[k] == '=' && k >= |Encode(data)| - 2)
  {
    if |data| >= 3 {
      EncodeAlphabet(data[3..]);
      var head, tail := EncodeFull(data[0], data[1], data[2]), Encode(data[3..]);
      forall k | 0 <= k < 4 ensures IsDigit(head[k]) {
        var i: Sextet :| Digit(i) == head[k];
        DigitValueOfDigit(i);
      }
      assert Encode(data) == head + tail;
    } else if |data| == 2 {
      DigitValueOfDigit(data[0] as int / 4);
      DigitValueOfDigit(data[0] as int % 4 * 16 + data[1] as int / 16);
      DigitValueOfDigit(data[1] as int % 16 * 4);
    } else if |data| == 1 {
      DigitValueOfDigit(data[0] as int / 4);
      DigitValueOfDigit(data[0] as int % 4 * 16);
    }
  }

  function DecodeQuad(s0: Sextet, s1: Sextet, s2: Sextet, s3: Sextet): Bytes
  {
    [(s0 * 4 + s1 / 16) as Byte, (s1 % 16 * 16 + s2 / 4) as Byte, (s2 % 4 * 64 + s3) as Byte]
  }

  /** Decodes the final group of four characters, which may end in padding.
      The bits a padded group leaves unused must be zero, as the encoder
      writes them. */
  function DecodeLast(q: string): Option<Bytes>
    requires |q| == 4
  {
    var d0, d1, d2, d3 := DigitValue(q[0]), DigitValue(q[1]), DigitValue(q[2]), DigitValue(q[3]);
    if d0.None? || d1.None? then None
    else if q[2] == '=' && q[3] == '=' then
      if d1.value % 16 != 0 then None
      else Some([(d0.value * 4 + d1.value / 16) as Byte])
    else if d2.Some? && q[3] == '=' then
      if d2.value % 4 != 0 then None
      else Some([(d0.value * 4 + d1.value / 16) as Byte, (d1.value % 16 * 16 + d2.value / 4) as Byte])
    else if d2.Some? && d3.Some? then
      Some(DecodeQuad(d0.value, d1.value, d2.value, d3.value))
    else None
  }

  /** A strict decoder: a length that is a multiple of four, alphabet digits
      only, padding only in the final group, and zero unused bits before the
      padding. It accepts exactly the encoder's outputs. */
  function Decode(s: string): (r: Option<Bytes>)
    decreases |s|
  {
    if |s| == 0 then Some([])
    else if |s| < 4 then None
    else if |s| == 4 then DecodeLast(s)
    else
      var d0, d1, d2, d3 := DigitValue(s[0]), DigitValue(s[1]), DigitValue(s[2]), DigitValue(s[3]);
      if d0.None? || d1.None? || d2.None? || d3.None? then None
      else match Decode(s[4..])
        case None => None
        case Some(rest) => Some(DecodeQuad(d0.value, d1.value, d2.value, d3.value) + rest)
  }

  lemma FullRoundTrip(a: Byte, b: Byte, c: Byte)
    ensures DecodeQuad(a as int / 4, a as int % 4 * 16 + b as int / 16,
                       b as int % 16 * 4 + c as int / 64, c as int % 64) == [a, b, c]
  {
  }

  lemma DecodeEncodeOne(a: Byte)
    ensures Decode(EncodeOne(a)) == Some([a])
  {
    DigitValueOfDigit(a as int / 4);
    DigitValueOfDigit(a as int % 4 * 16);
  }

  /** A final group with one padding character decodes to two bytes. */
  lemma DecodeLastPadded(s0: Sextet, s1: Sextet, s2: Sextet)
    requires s2 % 4 == 0
    ensures DecodeLast([Digit(s0), Digit(s1), Digit(s2), '='])
         == Some([(s0 * 4 + s1 / 16) as Byte, (s1 % 16 * 16 + s2 / 4) as Byte])
  {
    DigitValueOfDigit(s0);
    DigitValueOfDigit(s1);
    DigitValueOfDigit(s2);
  }

  lemma TwoBytesRoundTrip(a: Byte, b: Byte)
    ensures (a as int / 4) * 4 + (a as int % 4 * 16 + b as int / 16) / 16 == a as int
    ensures (a as int % 4 * 16 + b as int / 16) % 16 * 16 + (b as int % 16 * 4) / 4 == b as int
  {
  }

  lemma DecodeEncodeTwo(a: Byte, b: Byte)
    ensures Decode(EncodeTwo(a, b)) == Some([a, b])
  {
    DecodeLastPadded(a as int / 4, a as int % 4 * 16 + b as int / 16, b as int % 16 * 4);
    TwoBytesRoundTrip(a, b);
  }

  lemma DecodeFullGroup(a: Byte, b: Byte, c: Byte, tail: string)
    requires Decode(tail).Some?
    ensures Decode(EncodeFull(a, b, c) + tail) == Some([a, b, c] + Decode(tail).value)
  {
    var s0, s1, s2, s3 := a as int / 4, a as int % 4 * 16 + b as int / 16,
                          b as int % 16 * 4 + c as int / 64, c as int % 64;
    DigitValueOfDigit(s0);
    DigitValueOfDigit(s1);
    DigitValueOfDigit(s2);
    DigitValueOfDigit(s3);
    FullRoundTrip(a, b, c);
    var head := EncodeFull(a, b, c);
    var s := head + tail;
    assert s[..4] == head;
    assert s[4..] == tail;
    if |tail| == 0 {
      assert s == head;
      assert [a, b, c] + Decode(tail).value == [a, b, c];
    }
  }

  lemma DecodeEncodeShort(data: Bytes)
    requires |data| < 3
    ensures Decode(Encode(data)) == Some(data)
  {
    if |data| == 1 {
      assert Encode(data) == EncodeOne(data[0]);
      DecodeEncodeOne(data[0]);
      assert data == [data[0]];
    } else if |data| == 2 {
      assert Encode(data) == EncodeTwo(data[0], data[1]);
      DecodeEncodeTwo(data[0], data[1]);
      assert data == [data[0], data[1]];
    }
  }

  lemma DecodeEncodeStep(data: Bytes)
    requires |data| >= 3
    requires Decode(Encode(data[3..])) == Some(data[3..])
    ensures Decode(Encode(data)) == Some(data)
  {
    var a, b, c, rest := data[0], data[1], data[2], data[3..];
    var tail := Encode(rest);
    assert Encode(data) == EncodeFull(a, b, c) + tail;
    DecodeFullGroup(a, b, c, tail);
    assert Decode(Encode(data)) == Some([a, b, c] + rest);
    SplitThree(data);
  }

  lemma SplitThree<T>(data: seq<T>)
    requires |data| >= 3
    ensures data == [data[0], data[1], data[2]] + data[3..]
  {
  }

  /** Decoding an encoding gives back the original bytes. */
  lemma {:induction false} DecodeEncode(data: Bytes)
    ensures Decode(Encode(data)) == Some(data)
  {
    if |data| < 3 {
      DecodeEncodeShort(data);
    } else {
      DecodeEncode(data[3..]);
      DecodeEncodeStep(data);
    }
  }

  /** The three bytes of a full group encode back to the group's sextets. */
  lemma QuadEncodes(s0: Sextet, s1: Sextet, s2: Sextet, s3: Sextet)
    ensures var q := DecodeQuad(s0, s1, s2, s3);
      EncodeFull(q[0], q[1], q[2]) == [Digit(s0), Digit(s1), Digit(s2), Digit(s3)]
  {
    var a, b, c := s0 * 4 + s1 / 16, s1 % 16 * 16 + s2 / 4, s2 % 4 * 64 + s3;
    assert a / 4 == s0 && a % 4 == s1 / 16;
    assert b / 16 == s1 % 16 && b % 16 == s2 / 4;
    assert c / 64 == s2 % 4 && c % 64 == s3;
  }

  /** The byte of a group with two padding characters encodes back to its
      two sextets, when the unused bits are zero. */
  lemma OneByteEncodes(s0: Sextet, s1: Sextet)
    requires s1 % 16 == 0
    ensures EncodeOne((s0 * 4 + s1 / 16) as Byte) == [Digit(s0), Digit(s1), '=', '=']
  {
    var a := s0 * 4 + s1 / 16;
    assert a / 4 == s0 && a % 4 * 16 == s1;
  }

  /** The two bytes of a group with one padding character encode back to
      its three sextets, when the unused bits are zero. */
  lemma TwoBytesEncode(s0: Sextet, s1: Sextet, s2: Sextet)
    requires s2 % 4 == 0
    ensures EncodeTwo((s0 * 4 + s1 / 16) as Byte, (s1 % 16 * 16 + s2 / 4) as Byte)
         == [Digit(s0), Digit(s1), Digit(s2), '=']
  {
    var a, b := s0 * 4 + s1 / 16, s1 % 16 * 16 + s2 / 4;
    assert a / 4 == s0 && a % 4 * 16 + b / 16 == s1 && b % 16 * 4 == s2;
  }

  /** The one or two bytes of a padded final group encode back to it. */
  lemma LastEncodes(q: string)
    requires |q| == 4 && DecodeLast(q).Some?
    ensures Encode(DecodeLast(q).value) == q
  {
    var d0, d1, d2, d3 := DigitValue(q[0]), DigitValue(q[1]), DigitValue(q[2]), DigitValue(q[3]);
    var x := DecodeLast(q).value;
    if q[2] == '=' && q[3] == '=' {
      OneByteEncodes(d0.value, d1.value);
      assert q == [Digit(d0.value), Digit(d1.value), '=', '='];
    } else if q[3] == '=' {
      TwoBytesEncode(d0.value, d1.value, d2.value);
      assert q == [Digit(d0.value), Digit(d1.value), Digit(d2.value), '='];
    } else {
      QuadEncodes(d0.value, d1.value, d2.value, d3.value);
      assert q == [Digit(d0.value), Digit(d1.value), Digit(d2.value), Digit(d3.value)];
      assert Encode(x) == EncodeFull(x[0], x[1], x[2]) + Encode(x[3..]);
      assert x[3..] == [];
    }
  }

  /** Encoding what was decoded gives back the string: the decoder accepts
      only the encoder's own outputs, so a decoded payload pins its
      encoding. */
  lemma {:induction false} EncodeDecode(s: string, x: Bytes)
    requires Decode(s) == Some(x)
    ensures Encode(x) == s
    decreases |s|
  {
    if |s| == 4 {
      LastEncodes(s);
    } else if |s| > 4 {
      var d0, d1, d2, d3 := DigitValue(s[0]), DigitValue(s[1]), DigitValue(s[2]), DigitValue(s[3]);
      var rest := Decode(s[4..]).value;
      EncodeDecode(s[4..], rest);
      QuadEncodes(d0.value, d1.value, d2.value, d3.value);
      assert x == DecodeQuad(d0.value, d1.value, d2.value, d3.value) + rest;
      assert x[3..] == rest;
      assert Encode(x) == EncodeFull(x[0], x[1], x[2]) + Encode(x[3..]);
      assert s == s[..4] + s[4..];
    }
  }

  /** Different byte strings never share an encoding. */
  lemma EncodeInjective(x: Bytes, y: Bytes)
    requires Encode(x) == Encode(y)
    ensures x == y
  {
    DecodeEncode(x);
    DecodeEncode(y);
  }
}
