/**
 * The base64 encoding of section 4 of RFC 4648, used for the payload of a
 * texture's data URI: each group of three bytes becomes four characters of
 * the 64-character alphabet, and a final group of one or two bytes is
 * padded with '='.
 */
module Base64 {
  import opened Wrappers

  type Byte = b: int | 0 <= b < 256
  type Sextet = v: int | 0 <= v < 64

  /** The characters of the alphabet. */
  predicate IsDigit64(c: char) {
    ('A' <= c <= 'Z') || ('a' <= c <= 'z') || ('0' <= c <= '9') || c == '+' || c == '/'
  }

  /** The character for a 6-bit value. */
  function Digit(v: Sextet): (c: char)
    ensures IsDigit64(c)
  {
    if v < 26 then ('A' as int + v) as char
    else if v < 52 then ('a' as int + (v - 26)) as char
    else if v < 62 then ('0' as int + (v - 52)) as char
    else if v == 62 then '+'
    else '/'
  }

  /** The 6-bit value of a character of the alphabet. */
  function Value(c: char): Sextet
    requires IsDigit64(c)
  {
    if 'A' <= c <= 'Z' then c as int - 'A' as int
    else if 'a' <= c <= 'z' then c as int - 'a' as int + 26
    else if '0' <= c <= '9' then c as int - '0' as int + 52
    else if c == '+' then 62
    else 63
  }

  lemma ValueDigit(v: Sextet)
    ensures Value(Digit(v)) == v
  {
  }

  lemma DigitValue(c: char)
    requires IsDigit64(c)
    ensures Digit(Value(c)) == c
  {
  }

  /** Three bytes as four characters. */
  function EncodeGroup(a: Byte, b: Byte, c: Byte): string {
    [Digit(a / 4), Digit((a % 4) * 16 + b / 16), Digit((b % 16) * 4 + c / 64), Digit(c % 64)]
  }

  function Encode(bs: seq<Byte>): string
    decreases |bs|
  {
    if |bs| >= 3 then EncodeGroup(bs[0], bs[1], bs[2]) + Encode(bs[3..])
    else if |bs| == 2 then EncodeTwo(bs[0], bs[1])
    else if |bs| == 1 then EncodeOne(bs[0])
    else []
  }

  /** A final group of two bytes: three characters and one '='. */
  function EncodeTwo(a: Byte, b: Byte): (s: string)
    ensures |s| == 4
  {
    [Digit(a / 4), Digit((a % 4) * 16 + b / 16), Digit((b % 16) * 4), '=']
  }

  /** A final group of one byte: two characters and "==". */
  function EncodeOne(a: Byte): (s: string)
    ensures |s| == 4
  {
    [Digit(a / 4), Digit((a % 4) * 16), '=', '=']
  }

  /** Four characters of the alphabet as three bytes. */
  function DecodeGroup(w: Sextet, x: Sextet, y: Sextet, z: Sextet): seq<Byte> {
    [w * 4 + x / 16, (x % 16) * 16 + y / 4, (y % 4) * 64 + z]
  }

  /** A group of four characters of the alphabet. */
  function DecodeQuad(c0: char, c1: char, c2: char, c3: char): Option<seq<Byte>> {
    if IsDigit64(c0) && IsDigit64(c1) && IsDigit64(c2) && IsDigit64(c3) then
      Some(DecodeGroup(Value(c0), Value(c1), Value(c2), Value(c3)))
    else None
  }

  /** The last group, which may end in "=" or "=="; the bits a padded group
      leaves over must be zero. */
  function DecodeFinal(c0: char, c1: char, c2: char, c3: char): Option<seq<Byte>> {
    if c3 != '=' then DecodeQuad(c0, c1, c2, c3)
    else if c2 == '=' then
      if IsDigit64(c0) && IsDigit64(c1) && Value(c1) % 16 == 0 then
        Some([Value(c0) * 4 + Value(c1) / 16])
      else None
    else if IsDigit64(c0) && IsDigit64(c1) && IsDigit64(c2) && Value(c2) % 4 == 0 then
      Some(DecodeGroup(Value(c0), Value(c1), Value(c2), 0)[..2])
    else None
  }

  /** The decoder: groups of four characters, the last of which may be padded. */
  function Decode(s: string): Option<seq<Byte>>
    decreases |s|
  {
    if s == [] then Some([])
    else if |s| < 4 then None
    else if |s| == 4 then DecodeFinal(s[0], s[1], s[2], s[3])
    else
      match DecodeQuad(s[0], s[1], s[2], s[3])
      case None => None
      case Some(g) =>
        match Decode(s[4..])
        case Some(rest) => Some(g + rest)
        case None => None
  }

  lemma DivMod16(q: int, r: int)
    requires 0 <= r < 16
    ensures (q * 16 + r) / 16 == q && (q * 16 + r) % 16 == r
  {
  }

  lemma DivMod4(q: int, r: int)
    requires 0 <= r < 4
    ensures (q * 4 + r) / 4 == q && (q * 4 + r) % 4 == r
  {
  }

  /** Decoding a group undoes encoding it. */
  lemma GroupRoundTrip(a: Byte, b: Byte, c: Byte)
    ensures DecodeGroup(a / 4, (a % 4) * 16 + b / 16, (b % 16) * 4 + c / 64, c % 64) == [a, b, c]
  {
    DivMod16(a % 4, b / 16);
    DivMod4(b % 16, c / 64);
  }

  lemma GroupDigits(a: Byte, b: Byte, c: Byte)
    ensures var g := EncodeGroup(a, b, c);
      Value(g[0]) == a / 4 && Value(g[1]) == (a % 4) * 16 + b / 16 &&
      Value(g[2]) == (b % 16) * 4 + c / 64 && Value(g[3]) == c % 64
  {
    ValueDigit(a / 4);
    ValueDigit((a % 4) * 16 + b / 16);
    ValueDigit((b % 16) * 4 + c / 64);
    ValueDigit(c % 64);
  }

  lemma TailOne(a: Byte)
    ensures Decode(Encode([a])) == Some([a])
  {
    var s := EncodeOne(a);
    assert Encode([a]) == s;
    ValueDigit(a / 4);
    ValueDigit((a % 4) * 16);
    DivMod16(a % 4, 0);
  }

  lemma TailTwo(a: Byte, b: Byte)
    ensures Decode(Encode([a, b])) == Some([a, b])
  {
    var s := EncodeTwo(a, b);
    assert Encode([a, b]) == s;
    ValueDigit(a / 4);
    ValueDigit((a % 4) * 16 + b / 16);
    ValueDigit((b % 16) * 4);
    DivMod16(a % 4, b / 16);
    DivMod4(b % 16, 0);
    var v0, v1, v2 := Value(s[0]), Value(s[1]), Value(s[2]);
    assert v1 / 16 == a % 4 && v1 % 16 == b / 16 && v2 / 4 == b % 16 && v2 % 4 == 0;
    assert DecodeGroup(v0, v1, v2, 0)[..2] == [a, b];
  }

  lemma QuadGroup(a: Byte, b: Byte, c: Byte)
    ensures var g := EncodeGroup(a, b, c);
      DecodeQuad(g[0], g[1], g[2], g[3]) == Some([a, b, c]) && g[3] != '='
  {
    GroupDigits(a, b, c);
    GroupRoundTrip(a, b, c);
  }

  /** A full group in front decodes to its three bytes in front. */
  lemma GroupStep(a: Byte, b: Byte, c: Byte, t: string)
    ensures Decode(EncodeGroup(a, b, c) + t) ==
      match Decode(t)
      case Some(rest) => Some([a, b, c] + rest)
      case None => None
  {
    var g := EncodeGroup(a, b, c);
    var s := g + t;
    QuadGroup(a, b, c);
    assert s[0] == g[0] && s[1] == g[1] && s[2] == g[2] && s[3] == g[3];
    assert s[4..] == t;
    if t == [] {
      assert [a, b, c] + [] == [a, b, c];
    }
  }

  lemma EncodeStep(bs: seq<Byte>)
    requires |bs| >= 3
    ensures Encode(bs) == EncodeGroup(bs[0], bs[1], bs[2]) + Encode(bs[3..])
  {
  }

  /** Four characters for every group of three bytes begun. */
  lemma {:induction false} EncodeLength(bs: seq<Byte>)
    ensures |Encode(bs)| == 4 * ((|bs| + 2) / 3)
    decreases |bs|
  {
    if |bs| >= 3 {
      EncodeLength(bs[3..]);
      EncodeStep(bs);
      assert (|bs| + 2) / 3 == (|bs| - 1) / 3 + 1;
    }
  }

  /** Decoding the encoding of fewer than three bytes gives them back. */
  lemma RoundTripShort(bs: seq<Byte>)
    requires |bs| < 3
    ensures Decode(Encode(bs)) == Some(bs)
  {
    if |bs| == 2 {
      assert bs == [bs[0], bs[1]];
      TailTwo(bs[0], bs[1]);
    } else if |bs| == 1 {
      assert bs == [bs[0]];
      TailOne(bs[0]);
    } else {
      assert Encode(bs) == [];
    }
  }

  /** Decoding the encoding gives the bytes back. */
  lemma {:induction false} RoundTrip(bs: seq<Byte>)
    ensures Decode(Encode(bs)) == Some(bs)
    decreases |bs|
  {
    if |bs| < 3 {
      RoundTripShort(bs);
    } else {
      var t := bs[3..];
      RoundTrip(t);
      EncodeStep(bs);
      GroupPrefix(bs, Encode(t));
    }
  }

  /** A group in front of an encoding of the rest decodes to all the bytes. */
  lemma GroupPrefix(bs: seq<Byte>, e: string)
    requires |bs| >= 3 && Decode(e) == Some(bs[3..])
    ensures Decode(EncodeGroup(bs[0], bs[1], bs[2]) + e) == Some(bs)
  {
    GroupStep(bs[0], bs[1], bs[2], e);
    assert bs == [bs[0], bs[1], bs[2]] + bs[3..];
  }

  /** Every character of an encoding is in the alphabet, save the padding,
      which only the last two characters can be. */
  predicate IsEncoding(s: string) {
    |s| % 4 == 0 &&
    forall i :: 0 <= i < |s| ==> IsDigit64(s[i]) || (s[i] == '=' && i >= |s| - 2)
  }

  /** A group of four characters of the alphabet in front of an encoding. */
  lemma EncodingCons(g: string, t: string)
    requires |g| == 4 && IsDigit64(g[0]) && IsDigit64(g[1]) && IsDigit64(g[2]) && IsDigit64(g[3])
    requires IsEncoding(t)
    ensures IsEncoding(g + t)
  {
    forall i | 0 <= i < |g + t|
      ensures IsDigit64((g + t)[i]) || ((g + t)[i] == '=' && i >= |g + t| - 2)
    {
      if i >= 4 {
        assert (g + t)[i] == t[i - 4];
      }
    }
  }

  lemma {:induction false} EncodeAlphabet(bs: seq<Byte>)
    ensures IsEncoding(Encode(bs))
    decreases |bs|
  {
    if |bs| >= 3 {
      EncodeAlphabet(bs[3..]);
      EncodeStep(bs);
      EncodingCons(EncodeGroup(bs[0], bs[1], bs[2]), Encode(bs[3..]));
    } else if |bs| == 2 {
      assert Encode(bs) == EncodeTwo(bs[0], bs[1]);
    } else if |bs| == 1 {
      assert Encode(bs) == EncodeOne(bs[0]);
    }
  }

}
