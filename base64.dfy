/**
 * The base 64 encoding of section 4 of RFC 4648 (standard alphabet, `=` padding),
 * over byte sequences: the encoder behind Python's `base64.b64encode` and the
 * decoder behind `base64.b64decode`, used by the embedding fallback path.
 */
module Base64 {
  import opened Wrappers

  type Byte = b: int | 0 <= b < 256
  type Sextet = s: int | 0 <= s < 64

  const Pad: char := '='

  /** The 64 characters of the alphabet of RFC 4648, table 1. */
  predicate IsDigit(c: char) {
    ('A' <= c <= 'Z') || ('a' <= c <= 'z') || ('0' <= c <= '9') || c == '+' || c == '/'
  }

  /** Table 1 of RFC 4648: value to character. */
  function Digit(s: Sextet): (c: char)
    ensures IsDigit(c)
  {
    if s < 26 then ('A' as int + s) as char
    else if s < 52 then ('a' as int + (s - 26)) as char
    else if s < 62 then ('0' as int + (s - 52)) as char
    else if s == 62 then '+'
    else '/'
  }

  /** Table 1 of RFC 4648: character to value. */
  function Value(c: char): (s: Sextet)
    requires IsDigit(c)
    ensures Digit(s) == c
  {
    if 'A' <= c <= 'Z' then c as int - 'A' as int
    else if 'a' <= c <= 'z' then c as int - 'a' as int + 26
    else if '0' <= c <= '9' then c as int - '0' as int + 52
    else if c == '+' then 62
    else 63
  }

  lemma ValueOfDigit(s: Sextet)
    ensures Value(Digit(s)) == s
  {
  }

  /** Three bytes (24 bits) become four characters, most significant bits first. */
  function EncodeQuantum(b0: Byte, b1: Byte, b2: Byte): string {
    [Digit(b0 / 4), Digit((b0 % 4) * 16 + b1 / 16), Digit((b1 % 16) * 4 + b2 / 64), Digit(b2 % 64)]
  }

  /** The standard padded encoding; a final one-byte or two-byte group is padded with `==` or `=`. */
  function Encode(b: seq<Byte>): (s: string)
    ensures |s| == (|b| + 2) / 3 * 4
  {
    if |b| == 0 then []
    else if |b| == 1 then [Digit(b[0] / 4), Digit((b[0] % 4) * 16), Pad, Pad]
    else if |b| == 2 then [Digit(b[0] / 4), Digit((b[0] % 4) * 16 + b[1] / 16), Digit((b[1] % 16) * 4), Pad]
    else
      assert (|b| - 1) / 3 == (|b| + 2) / 3 - 1;
      EncodeQuantum(b[0], b[1], b[2]) + Encode(b[3..])
  }

  /**
   * Every character of an encoding is from the alphabet or is `=`, and all but
   * the last two are from the alphabet.
   */
  lemma {:induction false} EncodeAlphabet(b: seq<Byte>)
    ensures var s := Encode(b);
            && (forall i | 0 <= i < |s| :: IsDigit(s[i]) || s[i] == Pad)
            && (forall i | 0 <= i < |s| - 2 :: IsDigit(s[i]))
    decreases |b|
  {
    var s := Encode(b);
    if |b| >= 3 {
      EncodeAlphabet(b[3..]);
      var q := EncodeQuantum(b[0], b[1], b[2]);
      assert s == q + Encode(b[3..]);
      forall i | 0 <= i < |s|
        ensures IsDigit(s[i]) || s[i] == Pad
        ensures i < |s| - 2 ==> IsDigit(s[i])
      {
        assert |q| == 4 && IsDigit(q[0]) && IsDigit(q[1]) && IsDigit(q[2]) && IsDigit(q[3]);
        if i < 4 {
          assert s[i] == q[i];
        } else {
          assert s[i] == Encode(b[3..])[i - 4];
          assert i < |s| - 2 ==> i - 4 < |Encode(b[3..])| - 2;
        }
      }
    } else if |b| == 2 {
      assert s[0] == Digit(b[0] / 4) && s[1] == Digit((b[0] % 4) * 16 + b[1] / 16);
      assert s[2] == Digit((b[1] % 16) * 4) && s[3] == Pad;
    } else if |b| == 1 {
      assert s[0] == Digit(b[0] / 4) && s[1] == Digit((b[0] % 4) * 16);
      assert s[2] == Pad && s[3] == Pad;
    }
  }

  /** Four characters of the alphabet become three bytes. */
  function DecodeQuantum(s0: Sextet, s1: Sextet, s2: Sextet, s3: Sextet): seq<Byte> {
    [s0 * 4 + s1 / 16, (s1 % 16) * 16 + s2 / 4, (s2 % 4) * 64 + s3]
  }

  /** The final group of four characters, which may end in one or two pad characters. */
  function DecodeFinal(c0: char, c1: char, c2: char, c3: char): Option<seq<Byte>> {
    if !IsDigit(c0) || !IsDigit(c1) then None
    else if IsDigit(c2) && IsDigit(c3) then Some(DecodeQuantum(Value(c0), Value(c1), Value(c2), Value(c3)))
    else if IsDigit(c2) && c3 == Pad then Some(DecodeQuantum(Value(c0), Value(c1), Value(c2), 0)[..2])
    else if c2 == Pad && c3 == Pad then Some(DecodeQuantum(Value(c0), Value(c1), 0, 0)[..1])
    else None
  }

  /** Strict decoding: the length is a multiple of four and padding only ends the last group. */
  function Decode(s: string): (r: Option<seq<Byte>>)
    ensures r.Some? ==> |r.value| <= |s| / 4 * 3
  {
    if |s| == 0 then Some([])
    else if |s| < 4 then None
    else if |s| == 4 then DecodeFinal(s[0], s[1], s[2], s[3])
    else if IsDigit(s[0]) && IsDigit(s[1]) && IsDigit(s[2]) && IsDigit(s[3]) then
      assert (|s| - 4) / 4 == |s| / 4 - 1;
      match Decode(s[4..])
      case None => None
      case Some(rest) => Some(DecodeQuantum(Value(s[0]), Value(s[1]), Value(s[2]), Value(s[3])) + rest)
    else None
  }

  lemma QuantumRoundTrip(b0: Byte, b1: Byte, b2: Byte)
    ensures var q := EncodeQuantum(b0, b1, b2);
            DecodeQuantum(Value(q[0]), Value(q[1]), Value(q[2]), Value(q[3])) == [b0, b1, b2]
  {
    var s0, s1, s2, s3 := b0 / 4, (b0 % 4) * 16 + b1 / 16, (b1 % 16) * 4 + b2 / 64, b2 % 64;
    ValueOfDigit(s0);
    ValueOfDigit(s1);
    ValueOfDigit(s2);
    ValueOfDigit(s3);
    assert s1 / 16 == b0 % 4 && s1 % 16 == b1 / 16;
    assert s2 / 4 == b1 % 16 && s2 % 4 == b2 / 64;
  }

  /** A single final byte: two characters and `==`. */
  lemma OneByteRoundTrip(b0: Byte)
    ensures Decode(Encode([b0])) == Some([b0])
  {
    var s0, s1 := b0 / 4, (b0 % 4) * 16;
    var e := Encode([b0]);
    assert e == [Digit(s0), Digit(s1), Pad, Pad];
    ValueOfDigit(s0);
    ValueOfDigit(s1);
    assert DecodeFinal(e[0], e[1], e[2], e[3]) == Some(DecodeQuantum(s0, s1, 0, 0)[..1]);
    assert s1 / 16 == b0 % 4;
    assert DecodeQuantum(s0, s1, 0, 0)[..1] == [b0];
    assert Decode(e) == DecodeFinal(e[0], e[1], e[2], e[3]);
  }

  /** Two final bytes: three characters and `=`. */
  lemma TwoBytesRoundTrip(b0: Byte, b1: Byte)
    ensures Decode(Encode([b0, b1])) == Some([b0, b1])
  {
    var s0, s1, s2 := b0 / 4, (b0 % 4) * 16 + b1 / 16, (b1 % 16) * 4;
    var e := Encode([b0, b1]);
    assert e == [Digit(s0), Digit(s1), Digit(s2), Pad];
    ValueOfDigit(s0);
    ValueOfDigit(s1);
    ValueOfDigit(s2);
    assert DecodeFinal(e[0], e[1], e[2], e[3]) == Some(DecodeQuantum(s0, s1, s2, 0)[..2]);
    assert s1 / 16 == b0 % 4 && s1 % 16 == b1 / 16 && s2 / 4 == b1 % 16;
    assert DecodeQuantum(s0, s1, s2, 0)[..2] == [b0, b1];
    assert Decode(e) == DecodeFinal(e[0], e[1], e[2], e[3]);
  }

  /** A full quantum in front of a decodable rest decodes to its three bytes in front of the rest's bytes. */
  lemma QuantumThenRest(b0: Byte, b1: Byte, b2: Byte, rest: string, tail: seq<Byte>)
    requires Decode(rest) == Some(tail)
    ensures Decode(EncodeQuantum(b0, b1, b2) + rest) == Some([b0, b1, b2] + tail)
  {
    var q := EncodeQuantum(b0, b1, b2);
    var e := q + rest;
    QuantumRoundTrip(b0, b1, b2);
    assert e[..4] == q;
    if |rest| == 0 {
      assert e == q && tail == [];
      assert [b0, b1, b2] + tail == [b0, b1, b2];
      assert Decode(e) == DecodeFinal(q[0], q[1], q[2], q[3]);
    } else {
      assert e[4..] == rest;
      assert Decode(e) == Some(DecodeQuantum(Value(q[0]), Value(q[1]), Value(q[2]), Value(q[3])) + tail);
    }
  }

  /** A final group of one or two bytes round-trips through its padded quantum. */
  lemma ShortRoundTrip(b: seq<Byte>)
    requires 1 <= |b| <= 2
    ensures Decode(Encode(b)) == Some(b)
  {
    if |b| == 1 {
      SplitOne(b);
      OneByteRoundTrip(b[0]);
    } else {
      SplitTwo(b);
      TwoBytesRoundTrip(b[0], b[1]);
    }
  }

  /** A one-byte sequence is the display of its byte. */
  lemma SplitOne(b: seq<Byte>)
    requires |b| == 1
    ensures b == [b[0]]
  {
  }

  /** A two-byte sequence is the display of its bytes. */
  lemma SplitTwo(b: seq<Byte>)
    requires |b| == 2
    ensures b == [b[0], b[1]]
  {
  }

  /** Three leading bytes round-trip in front of a rest that does. */
  lemma LongRoundTrip(b: seq<Byte>)
    requires |b| >= 3
    requires Decode(Encode(b[3..])) == Some(b[3..])
    ensures Decode(Encode(b)) == Some(b)
  {
    var rest, tail := Encode(b[3..]), b[3..];
    EncodeStep(b);
    QuantumThenRest(b[0], b[1], b[2], rest, tail);
    SplitThree(b);
  }

  /** A sequence of at least three bytes is its first three followed by the rest. */
  lemma SplitThree(b: seq<Byte>)
    requires |b| >= 3
    ensures b == [b[0], b[1], b[2]] + b[3..]
  {
  }

  /** Encoding a sequence of at least three bytes encodes its first three, then the rest. */
  lemma EncodeStep(b: seq<Byte>)
    requires |b| >= 3
    ensures Encode(b) == EncodeQuantum(b[0], b[1], b[2]) + Encode(b[3..])
  {
  }

  /** Decoding what was encoded gives back the same bytes (Python's b64decode(b64encode(b)) == b). */
  lemma {:induction false} DecodeEncode(b: seq<Byte>)
    ensures Decode(Encode(b)) == Some(b)
    decreases |b|
  {
    if |b| >= 3 {
      DecodeEncode(b[3..]);
      LongRoundTrip(b);
    } else if |b| > 0 {
      ShortRoundTrip(b);
    }
  }
}
