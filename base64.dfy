/**
 * `base64.RawStdEncoding` and its `Strict()` decoder: the alphabet of
 * section 4 of RFC 4648, padding omitted as section 3.2 allows, and on
 * decoding the canonical-encoding rule of section 3.5 (the unused low bits
 * of the last character must be zero). Like Go's decoder, carriage returns
 * and line feeds in the input are skipped.
 */
module Base64 {
  import opened Wrappers
  import opened GoTypes

  type Sextet = x: int | 0 <= x < 64

  /** The 64 characters of the standard alphabet. */
  predicate InAlphabet(c: char)
  {
    'A' <= c <= 'Z' || 'a' <= c <= 'z' || '0' <= c <= '9' || c == '+' || c == '/'
  }

  predicate AllInAlphabet(s: string)
  {
    forall k :: 0 <= k < |s| ==> InAlphabet(s[k])
  }

  function EncodeSextet(v: Sextet): (c: char)
    ensures InAlphabet(c)
  {
    if v < 26 then ('A' as int + v) as char
    else if v < 52 then ('a' as int + (v - 26)) as char
    else if v < 62 then ('0' as int + (v - 52)) as char
    else if v == 62 then '+'
    else '/'
  }

  function DecodeSextet(c: char): (v: Sextet)
    requires InAlphabet(c)
    ensures EncodeSextet(v) == c
  {
    if 'A' <= c <= 'Z' then c as int - 'A' as int
    else if 'a' <= c <= 'z' then c as int - 'a' as int + 26
    else if '0' <= c <= '9' then c as int - '0' as int + 52
    else if c == '+' then 62
    else 63
  }

  /** The alphabet maps sextets one to one. */
  lemma DecodeEncodeSextet(v: Sextet)
    ensures DecodeSextet(EncodeSextet(v)) == v
  {
  }

  /** Three bytes as four characters, six bits each, most significant first. */
  function EncodeGroup(b0: byte, b1: byte, b2: byte): (s: string)
    ensures |s| == 4 && AllInAlphabet(s)
  {
    [EncodeSextet(b0 / 4), EncodeSextet((b0 % 4) * 16 + b1 / 16),
     EncodeSextet((b1 % 16) * 4 + b2 / 64), EncodeSextet(b2 % 64)]
  }

  /**
   * `RawStdEncoding.EncodeToString`: each group of three bytes becomes four
   * characters; a final one or two bytes become two or three characters, the
   * unused low bits being zero.
   */
  function Encode(b: seq<byte>): (s: string)
    ensures AllInAlphabet(s)
  {
    if |b| == 0 then []
    else if |b| == 1 then
      [EncodeSextet(b[0] / 4), EncodeSextet((b[0] % 4) * 16)]
    else if |b| == 2 then
      [EncodeSextet(b[0] / 4), EncodeSextet((b[0] % 4) * 16 + b[1] / 16),
       EncodeSextet((b[1] % 16) * 4)]
    else
      EncodeGroup(b[0], b[1], b[2]) + Encode(b[3..])
  }

  /** `RawStdEncoding.EncodedLen`: eight bits per byte, six per character, rounded up. */
  lemma {:induction false} EncodeLength(b: seq<byte>)
    ensures |Encode(b)| == (|b| * 8 + 5) / 6
  {
    if |b| >= 3 {
      EncodeLength(b[3..]);
    }
  }

  /** The input with every carriage return and line feed taken out. */
  function RemoveNewlines(s: string): (r: string)
    ensures |r| <= |s|
  {
    if s == [] then []
    else if s[0] == '\r' || s[0] == '\n' then RemoveNewlines(s[1..])
    else [s[0]] + RemoveNewlines(s[1..])
  }

  /**
   * The strict decoder on an input without line breaks. A lone final
   * character, any character outside the alphabet, and non-zero unused bits
   * in a final group of two or three characters are corrupt input.
   */
  function DecodeStrict(s: string): (r: Option<seq<byte>>)
    ensures r.Some? ==> AllInAlphabet(s) && |s| % 4 != 1
  {
    if |s| == 0 then Some([])
    else if |s| == 1 || !InAlphabet(s[0]) || !InAlphabet(s[1]) then None
    else
      var c0, c1 := DecodeSextet(s[0]), DecodeSextet(s[1]);
      var b0: byte := c0 * 4 + c1 / 16;
      if |s| == 2 then
        if c1 % 16 == 0 then Some([b0]) else None
      else if !InAlphabet(s[2]) then None
      else
        var c2 := DecodeSextet(s[2]);
        var b1: byte := (c1 % 16) * 16 + c2 / 4;
        if |s| == 3 then
          if c2 % 4 == 0 then Some([b0, b1]) else None
        else if !InAlphabet(s[3]) then None
        else
          var c3 := DecodeSextet(s[3]);
          var b2: byte := (c2 % 4) * 64 + c3;
          match DecodeStrict(s[4..])
          case None => None
          case Some(rest) =>
            AlphabetOfGroup(s);
            Some([b0, b1, b2] + rest)
  }

  /** Four characters of the alphabet followed by more of them. */
  lemma AlphabetOfGroup(s: string)
    requires |s| >= 4 && InAlphabet(s[0]) && InAlphabet(s[1]) && InAlphabet(s[2]) && InAlphabet(s[3])
    requires AllInAlphabet(s[4..])
    ensures AllInAlphabet(s)
  {
    forall k | 4 <= k < |s|
      ensures InAlphabet(s[k])
    {
      assert s[k] == s[4..][k - 4];
    }
  }

  /**
   * `RawStdEncoding.Strict().DecodeString`: line breaks aside, only the
   * canonical encoding of some bytes is accepted, and it gives those bytes.
   */
  function Decode(s: string): (r: Option<seq<byte>>)
    ensures r.Some? ==> Encode(r.value) == RemoveNewlines(s)
  {
    var r := DecodeStrict(RemoveNewlines(s));
    if r.Some? then
      EncodeDecodeStrict(RemoveNewlines(s), r.value);
      r
    else r
  }

  /** Text without line breaks passes through RemoveNewlines unchanged. */
  lemma {:induction false} RemoveNewlinesOfAlphabet(s: string)
    requires AllInAlphabet(s)
    ensures RemoveNewlines(s) == s
  {
    if s != [] {
      RemoveNewlinesOfAlphabet(s[1..]);
      assert [s[0]] + s[1..] == s;
    }
  }

  /** Three bytes split into four sextets and put back together. */
  lemma BytesToSextetsAndBack(b0: byte, b1: byte, b2: byte)
    ensures var c0, c1, c2, c3 := b0 / 4, (b0 % 4) * 16 + b1 / 16, (b1 % 16) * 4 + b2 / 64, b2 % 64;
      && c1 < 64 && c2 < 64
      && c0 * 4 + c1 / 16 == b0
      && (c1 % 16) * 16 + c2 / 4 == b1
      && (c2 % 4) * 64 + c3 == b2
  {
    var c1, c2 := (b0 % 4) * 16 + b1 / 16, (b1 % 16) * 4 + b2 / 64;
    assert c1 / 16 == b0 % 4 && c1 % 16 == b1 / 16;
    assert c2 / 4 == b1 % 16 && c2 % 4 == b2 / 64;
  }

  /** Four sextets joined into three bytes and split again. */
  lemma SextetsToBytesAndBack(c0: Sextet, c1: Sextet, c2: Sextet, c3: Sextet)
    ensures var b0, b1, b2 := c0 * 4 + c1 / 16, (c1 % 16) * 16 + c2 / 4, (c2 % 4) * 64 + c3;
      && b0 < 256 && b1 < 256 && b2 < 256
      && b0 / 4 == c0
      && (b0 % 4) * 16 + b1 / 16 == c1
      && (b1 % 16) * 4 + b2 / 64 == c2
      && b2 % 64 == c3
  {
    var b0, b1, b2 := c0 * 4 + c1 / 16, (c1 % 16) * 16 + c2 / 4, (c2 % 4) * 64 + c3;
    assert b0 / 4 == c0 && b0 % 4 == c1 / 16;
    assert b1 / 16 == c1 % 16 && b1 % 16 == c2 / 4;
    assert b2 / 64 == c2 % 4 && b2 % 64 == c3;
  }

  /** A final single byte decodes back from its two characters. */
  lemma DecodeStrictEncodeOne(b0: byte)
    ensures DecodeStrict(Encode([b0])) == Some([b0])
  {
    var s := Encode([b0]);
    var c0, c1 := b0 / 4, (b0 % 4) * 16;
    assert s == [EncodeSextet(c0), EncodeSextet(c1)];
    DecodeEncodeSextet(c0);
    DecodeEncodeSextet(c1);
    assert DecodeSextet(s[0]) == c0 && DecodeSextet(s[1]) == c1;
    assert c0 * 4 + c1 / 16 == b0;
  }

  /** A final pair of bytes decodes back from its three characters. */
  lemma DecodeStrictEncodeTwo(b0: byte, b1: byte)
    ensures DecodeStrict(Encode([b0, b1])) == Some([b0, b1])
  {
    var s := Encode([b0, b1]);
    var c0, c1, c2 := b0 / 4, (b0 % 4) * 16 + b1 / 16, (b1 % 16) * 4;
    assert s == [EncodeSextet(c0), EncodeSextet(c1), EncodeSextet(c2)];
    BytesToSextetsAndBack(b0, b1, 0);
    DecodeEncodeSextet(c0);
    DecodeEncodeSextet(c1);
    DecodeEncodeSextet(c2);
    assert DecodeSextet(s[0]) == c0 && DecodeSextet(s[1]) == c1 && DecodeSextet(s[2]) == c2;
  }

  /** A full group decodes back, followed by whatever the rest decodes to. */
  lemma DecodeStrictGroup(b0: byte, b1: byte, b2: byte, t: string)
    ensures DecodeStrict(EncodeGroup(b0, b1, b2) + t) == match DecodeStrict(t)
      case None => None
      case Some(rest) => Some([b0, b1, b2] + rest)
  {
    var s := EncodeGroup(b0, b1, b2) + t;
    var c0, c1, c2, c3 := b0 / 4, (b0 % 4) * 16 + b1 / 16, (b1 % 16) * 4 + b2 / 64, b2 % 64;
    BytesToSextetsAndBack(b0, b1, b2);
    DecodeEncodeSextet(c0);
    DecodeEncodeSextet(c1);
    DecodeEncodeSextet(c2);
    DecodeEncodeSextet(c3);
    assert DecodeSextet(s[0]) == c0 && DecodeSextet(s[1]) == c1;
    assert DecodeSextet(s[2]) == c2 && DecodeSextet(s[3]) == c3;
    assert s[4..] == t;
  }

  /** Decoding an encoding gives the bytes back. */
  lemma {:induction false} DecodeStrictEncode(b: seq<byte>)
    ensures DecodeStrict(Encode(b)) == Some(b)
  {
    if |b| == 1 {
      DecodeStrictEncodeOne(b[0]);
      assert b == [b[0]];
    } else if |b| == 2 {
      DecodeStrictEncodeTwo(b[0], b[1]);
      assert b == [b[0], b[1]];
    } else if |b| >= 3 {
      DecodeStrictEncode(b[3..]);
      DecodeStrictEncodeStep(b);
    }
  }

  /** One step of the induction: a full group in front of bytes that decode back. */
  lemma DecodeStrictEncodeStep(b: seq<byte>)
    requires |b| >= 3 && DecodeStrict(Encode(b[3..])) == Some(b[3..])
    ensures DecodeStrict(Encode(b)) == Some(b)
  {
    var rest := b[3..];
    FirstThreeThenRest(b);
    EncodeGroupThenRest(b[0], b[1], b[2], rest);
    DecodeStrictGroup(b[0], b[1], b[2], Encode(rest));
  }

  /** A sequence of three or more bytes is its first three followed by the rest. */
  lemma FirstThreeThenRest(b: seq<byte>)
    requires |b| >= 3
    ensures b == [b[0], b[1], b[2]] + b[3..]
  {
  }

  /** The round trip through the string form used for salts and hashes. */
  lemma DecodeEncode(b: seq<byte>)
    ensures Decode(Encode(b)) == Some(b)
  {
    RemoveNewlinesOfAlphabet(Encode(b));
    DecodeStrictEncode(b);
  }

  /** Four sextets packed into three bytes encode back to the four sextets. */
  lemma EncodeGroupOfSextets(c0: Sextet, c1: Sextet, c2: Sextet, c3: Sextet, b0: byte, b1: byte, b2: byte)
    requires b0 == c0 * 4 + c1 / 16 && b1 == (c1 % 16) * 16 + c2 / 4 && b2 == (c2 % 4) * 64 + c3
    ensures EncodeGroup(b0, b1, b2) == [EncodeSextet(c0), EncodeSextet(c1), EncodeSextet(c2), EncodeSextet(c3)]
  {
    SextetsToBytesAndBack(c0, c1, c2, c3);
    var d0, d1, d2, d3 := b0 / 4, (b0 % 4) * 16 + b1 / 16, (b1 % 16) * 4 + b2 / 64, b2 % 64;
    assert d0 == c0 && d1 == c1 && d2 == c2 && d3 == c3;
  }

  /** Two or three accepted final characters are the encoding of what they decode to. */
  lemma {:induction false} EncodeDecodeStrictTail(s: string, b: seq<byte>)
    requires 2 <= |s| <= 3
    requires DecodeStrict(s) == Some(b)
    ensures Encode(b) == s
  {
    if |s| == 2 {
      var c0, c1 := DecodeStrictTwoParts(s, b);
      EncodeOfTwoSextets(c0, c1);
    } else {
      var c0, c1, c2 := DecodeStrictThreeParts(s, b);
      EncodeOfThreeSextets(c0, c1, c2);
    }
  }

  /** The byte two sextets pack into encodes back to them when the unused bits are zero. */
  lemma EncodeOfTwoSextets(c0: Sextet, c1: Sextet)
    requires c1 % 16 == 0
    ensures c0 * 4 + c1 / 16 < 256
    ensures Encode([c0 * 4 + c1 / 16]) == [EncodeSextet(c0), EncodeSextet(c1)]
  {
    SextetsToBytesAndBack(c0, c1, 0, 0);
  }

  /** The two bytes three sextets pack into encode back to them when the unused bits are zero. */
  lemma EncodeOfThreeSextets(c0: Sextet, c1: Sextet, c2: Sextet)
    requires c2 % 4 == 0
    ensures c0 * 4 + c1 / 16 < 256 && (c1 % 16) * 16 + c2 / 4 < 256
    ensures Encode([c0 * 4 + c1 / 16, (c1 % 16) * 16 + c2 / 4]) == [EncodeSextet(c0), EncodeSextet(c1), EncodeSextet(c2)]
  {
    SextetsToBytesAndBack(c0, c1, c2, 0);
    var b0: byte, b1: byte := c0 * 4 + c1 / 16, (c1 % 16) * 16 + c2 / 4;
    assert b0 / 4 == c0 && (b0 % 4) * 16 + b1 / 16 == c1;
    assert (b1 % 16) * 4 == c2 by {
      assert b1 % 16 == c2 / 4;
    }
  }

  /** An accepted input of two characters: two sextets, the second with its low four bits zero, give one byte. */
  lemma DecodeStrictTwoParts(s: string, b: seq<byte>) returns (c0: Sextet, c1: Sextet)
    requires |s| == 2 && DecodeStrict(s) == Some(b)
    ensures s == [EncodeSextet(c0), EncodeSextet(c1)]
    ensures c1 % 16 == 0 && b == [c0 * 4 + c1 / 16]
  {
    c0, c1 := DecodeSextet(s[0]), DecodeSextet(s[1]);
  }

  /** An accepted input of three characters: three sextets, the last with its low two bits zero, give two bytes. */
  lemma DecodeStrictThreeParts(s: string, b: seq<byte>) returns (c0: Sextet, c1: Sextet, c2: Sextet)
    requires |s| == 3 && DecodeStrict(s) == Some(b)
    ensures s == [EncodeSextet(c0), EncodeSextet(c1), EncodeSextet(c2)]
    ensures c2 % 4 == 0 && b == [c0 * 4 + c1 / 16, (c1 % 16) * 16 + c2 / 4]
  {
    c0, c1, c2 := DecodeSextet(s[0]), DecodeSextet(s[1]), DecodeSextet(s[2]);
  }

  /**
   * Strictness: the decoder accepts only canonical encodings, so whatever it
   * accepts is exactly the encoding of what it returns.
   */
  lemma {:induction false} EncodeDecodeStrict(s: string, b: seq<byte>)
    requires DecodeStrict(s) == Some(b)
    ensures Encode(b) == s
  {
    if 2 <= |s| <= 3 {
      EncodeDecodeStrictTail(s, b);
    } else if |s| >= 4 {
      var c0, c1, c2, c3, rest := DecodeStrictGroupParts(s, b);
      EncodeDecodeStrict(s[4..], rest);
      EncodeGroupOfSextets(c0, c1, c2, c3, b[0], b[1], b[2]);
      EncodeGroupThenRest(b[0], b[1], b[2], rest);
      assert b == [b[0], b[1], b[2]] + rest;
      assert Encode(b) == s[..4] + s[4..];
      assert s == s[..4] + s[4..];
    }
  }

  /**
   * An accepted input of four or more characters: its first group holds four
   * sextets packed into the first three bytes, and the rest of it is
   * accepted, giving the other bytes.
   */
  lemma DecodeStrictGroupParts(s: string, b: seq<byte>) returns (c0: Sextet, c1: Sextet, c2: Sextet, c3: Sextet, rest: seq<byte>)
    requires |s| >= 4 && DecodeStrict(s) == Some(b)
    ensures s[..4] == [EncodeSextet(c0), EncodeSextet(c1), EncodeSextet(c2), EncodeSextet(c3)]
    ensures DecodeStrict(s[4..]) == Some(rest)
    ensures |b| >= 3 && b[3..] == rest
    ensures b[0] == c0 * 4 + c1 / 16 && b[1] == (c1 % 16) * 16 + c2 / 4 && b[2] == (c2 % 4) * 64 + c3
  {
    c0, c1, c2, c3 := DecodeSextet(s[0]), DecodeSextet(s[1]), DecodeSextet(s[2]), DecodeSextet(s[3]);
    rest := DecodeStrict(s[4..]).value;
  }

  /** Encoding three bytes and then more bytes encodes the group first. */
  lemma EncodeGroupThenRest(b0: byte, b1: byte, b2: byte, rest: seq<byte>)
    ensures Encode([b0, b1, b2] + rest) == EncodeGroup(b0, b1, b2) + Encode(rest)
  {
    var b := [b0, b1, b2] + rest;
    assert b[0] == b0 && b[1] == b1 && b[2] == b2 && b[3..] == rest;
  }

  /** Two encodings that decode to the same bytes are the same text, line breaks aside. */
  lemma DecodeInjective(s: string, t: string)
    requires Decode(s).Some? && Decode(s) == Decode(t)
    ensures RemoveNewlines(s) == RemoveNewlines(t)
  {
    EncodeDecodeStrict(RemoveNewlines(s), Decode(s).value);
    EncodeDecodeStrict(RemoveNewlines(t), Decode(t).value);
  }
}
