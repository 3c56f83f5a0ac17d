/**
 * `utf8_percent_encode(s, NON_ALPHANUMERIC)`: the text is turned into its
 * UTF-8 bytes, every ASCII letter or digit is copied as is, and every other
 * byte becomes `%` and two upper-case hexadecimal digits (percent-encoding as
 * in section 2.1 of RFC 3986, with everything but ASCII alphanumerics in the
 * encode set).
 */
module PercentEncoding {
  import opened Wrappers

  type Byte = b: int | 0 <= b < 256

  // ---------------------------------------------------------------------------
  // UTF-8

  /** The UTF-8 encoding of one Unicode scalar value. */
  function Utf8Char(c: char): (r: seq<Byte>)
    ensures 1 <= |r| <= 4
    ensures c as int < 0x80 ==> r == [c as int]
    ensures c as int >= 0x80 ==> forall i :: 0 <= i < |r| ==> r[i] >= 0x80
  {
    var n := c as int;
    if n < 0x80 then [n]
    else if n < 0x800 then [0xC0 + n / 0x40, 0x80 + n % 0x40]
    else if n < 0x1_0000 then [0xE0 + n / 0x1000, 0x80 + (n / 0x40) % 0x40, 0x80 + n % 0x40]
    else [0xF0 + n / 0x4_0000, 0x80 + (n / 0x1000) % 0x40, 0x80 + (n / 0x40) % 0x40, 0x80 + n % 0x40]
  }

  /** The code point a well-formed 1- to 4-byte UTF-8 sequence stands for. */
  function Utf8CodePoint(bs: seq<Byte>): int
    requires 1 <= |bs| <= 4
  {
    var b: seq<int> := bs;
    if |b| == 1 then b[0]
    else if |b| == 2 then (b[0] - 0xC0) * 0x40 + (b[1] - 0x80)
    else if |b| == 3 then (b[0] - 0xE0) * 0x1000 + (b[1] - 0x80) * 0x40 + (b[2] - 0x80)
    else (b[0] - 0xF0) * 0x4_0000 + (b[1] - 0x80) * 0x1000 + (b[2] - 0x80) * 0x40 + (b[3] - 0x80)
  }

  /** Decoding the bytes of one character gives back that character's code point. */
  lemma Utf8CharRoundTrip(c: char)
    ensures Utf8CodePoint(Utf8Char(c)) == c as int
  {
    var n := c as int;
    if n < 0x80 {
    } else if n < 0x800 {
      assert n == (n / 0x40) * 0x40 + n % 0x40;
    } else if n < 0x1_0000 {
      assert n / 0x40 == (n / 0x1000) * 0x40 + (n / 0x40) % 0x40;
      assert n == (n / 0x40) * 0x40 + n % 0x40;
    } else {
      assert n / 0x1000 == (n / 0x4_0000) * 0x40 + (n / 0x1000) % 0x40;
      assert n / 0x40 == (n / 0x1000) * 0x40 + (n / 0x40) % 0x40;
      assert n == (n / 0x40) * 0x40 + n % 0x40;
    }
  }

  /** How many bytes a UTF-8 sequence has, read off its first byte. */
  function Utf8SequenceLength(first: Byte): nat
  {
    if first < 0x80 then 1 else if first < 0xE0 then 2 else if first < 0xF0 then 3 else 4
  }

  /** A character's first byte says how many bytes the character takes. */
  lemma Utf8CharLength(c: char)
    ensures |Utf8Char(c)| == Utf8SequenceLength(Utf8Char(c)[0])
  {
  }

  /** Where one character's bytes begin a sequence, they determine the character and the rest. */
  lemma Utf8CharPrefix(c: char, d: char, rest: seq<Byte>, rest': seq<Byte>)
    requires Utf8Char(c) + rest == Utf8Char(d) + rest'
    ensures c == d && rest == rest'
  {
    var bc, bd := Utf8Char(c), Utf8Char(d);
    assert bc[0] == (bc + rest)[0] == (bd + rest')[0] == bd[0];
    Utf8CharLength(c);
    Utf8CharLength(d);
    assert bc == (bc + rest)[..|bc|] == (bd + rest')[..|bd|] == bd;
    Utf8CharRoundTrip(c);
    Utf8CharRoundTrip(d);
    assert rest == (bc + rest)[|bc|..] == (bd + rest')[|bd|..] == rest';
  }

  /** The UTF-8 bytes of a string (`str::as_bytes`): one to four bytes per character. */
  function Utf8(s: string): (r: seq<Byte>)
    ensures |s| <= |r| <= 4 * |s|
  {
    if s == [] then [] else Utf8Char(s[0]) + Utf8(s[1..])
  }

  /** Different texts have different UTF-8 bytes. */
  lemma {:induction false} Utf8Injective(s: string, t: string)
    requires Utf8(s) == Utf8(t)
    ensures s == t
  {
    if s != [] && t != [] {
      Utf8CharPrefix(s[0], t[0], Utf8(s[1..]), Utf8(t[1..]));
      Utf8Injective(s[1..], t[1..]);
      assert s == [s[0]] + s[1..] && t == [t[0]] + t[1..];
    }
  }

  lemma {:induction false} Utf8Append(a: string, b: string)
    ensures Utf8(a + b) == Utf8(a) + Utf8(b)
  {
    if a == [] {
      assert a + b == b;
    } else {
      assert (a + b)[1..] == a[1..] + b;
      Utf8Append(a[1..], b);
    }
  }

  predicate IsAscii(s: string) {
    forall i :: 0 <= i < |s| ==> s[i] as int < 0x80
  }

  /** An ASCII string is its own UTF-8 encoding, byte for character. */
  lemma {:induction false} Utf8OfAscii(s: string)
    requires IsAscii(s)
    ensures |Utf8(s)| == |s|
    ensures forall i :: 0 <= i < |s| ==> Utf8(s)[i] == s[i] as int
  {
    if s != [] {
      assert IsAscii(s[1..]) by {
        forall i | 0 <= i < |s| - 1 ensures s[1..][i] as int < 0x80 {
          assert s[1..][i] == s[i + 1];
        }
      }
      Utf8OfAscii(s[1..]);
    }
  }

  // ---------------------------------------------------------------------------
  // Percent-encoding of bytes

  /** The bytes `NON_ALPHANUMERIC` leaves alone: ASCII `0-9`, `A-Z`, `a-z`. */
  predicate IsAlphanumeric(b: int) {
    0x30 <= b <= 0x39 || 0x41 <= b <= 0x5A || 0x61 <= b <= 0x7A
  }

  /** An upper-case hexadecimal digit, as the encoder writes it. */
  predicate IsUpperHex(c: char) {
    '0' <= c <= '9' || 'A' <= c <= 'F'
  }

  /** A character the encoder may produce. */
  predicate IsEncodedChar(c: char) {
    IsAlphanumeric(c as int) || c == '%'
  }

  function HexValue(c: char): (n: int)
    requires IsUpperHex(c)
    ensures 0 <= n < 16
  {
    if c <= '9' then c as int - '0' as int else c as int - 'A' as int + 10
  }

  function HexDigit(n: int): (c: char)
    requires 0 <= n < 16
    ensures IsUpperHex(c) && HexValue(c) == n
  {
    if n < 10 then (0x30 + n) as char else (0x37 + n) as char
  }

  lemma HexDigitOfValue(c: char)
    requires IsUpperHex(c)
    ensures HexDigit(HexValue(c)) == c
  {
  }

  /** One byte, encoded. */
  function EncodeByte(b: Byte): (r: string)
  {
    if IsAlphanumeric(b) then [b as char] else ['%', HexDigit(b / 16), HexDigit(b % 16)]
  }

  /** The number of bytes the encoder copies unchanged. */
  function CountAlphanumeric(bs: seq<Byte>): (n: nat)
    ensures n <= |bs|
  {
    if bs == [] then 0 else (if IsAlphanumeric(bs[0]) then 1 else 0) + CountAlphanumeric(bs[1..])
  }

  /** The encoder proper, byte by byte. */
  function Encode(bs: seq<Byte>): (r: string)
    ensures |r| == CountAlphanumeric(bs) + 3 * (|bs| - CountAlphanumeric(bs))
    ensures forall i :: 0 <= i < |r| ==> IsEncodedChar(r[i])
  {
    if bs == [] then [] else EncodeByte(bs[0]) + Encode(bs[1..])
  }

  /** A run of ASCII letters and digits is copied unchanged and in order. */
  lemma {:induction false} EncodeAlphanumeric(bs: seq<Byte>)
    requires forall i :: 0 <= i < |bs| ==> IsAlphanumeric(bs[i])
    ensures |Encode(bs)| == |bs|
    ensures forall i :: 0 <= i < |bs| ==> Encode(bs)[i] == bs[i] as char
  {
    if bs != [] {
      EncodeAlphanumeric(bs[1..]);
      assert Encode(bs) == [bs[0] as char] + Encode(bs[1..]);
    }
  }

  /**
   * Strict percent-decoding: accepts exactly what the encoder can produce
   * (letters and digits stand for themselves, `%` and two upper-case hex
   * digits stand for a byte that is not a letter or digit) and refuses
   * everything else.
   */
  function Decode(s: string): (r: Option<seq<Byte>>)
    decreases |s|
  {
    if s == [] then Some([])
    else if IsAlphanumeric(s[0] as int) then
      match Decode(s[1..])
      case None => None
      case Some(rest) => Some([s[0] as int as Byte] + rest)
    else if |s| >= 3 && s[0] == '%' && IsUpperHex(s[1]) && IsUpperHex(s[2])
            && !IsAlphanumeric(HexValue(s[1]) * 16 + HexValue(s[2])) then
      match Decode(s[3..])
      case None => None
      case Some(rest) => Some([HexValue(s[1]) * 16 + HexValue(s[2])] + rest)
    else None
  }

  /** Encoding distributes over concatenation. */
  lemma {:induction false} EncodeAppend(a: seq<Byte>, b: seq<Byte>)
    ensures Encode(a + b) == Encode(a) + Encode(b)
  {
    if a == [] {
      assert a + b == b;
    } else {
      assert (a + b)[0] == a[0];
      assert (a + b)[1..] == a[1..] + b;
      EncodeAppend(a[1..], b);
    }
  }

  /** Decoding the encoder's output gives back exactly the input bytes. */
  lemma {:induction false} DecodeEncode(bs: seq<Byte>)
    ensures Decode(Encode(bs)) == Some(bs)
  {
    if bs != [] {
      var b, e, rest := bs[0], EncodeByte(bs[0]), Encode(bs[1..]);
      var s := e + rest;
      assert Encode(bs) == s;
      DecodeEncode(bs[1..]);
      if IsAlphanumeric(b) {
        assert s[0] == b as char && s[1..] == rest;
        assert Decode(s) == Some([b] + bs[1..]);
      } else {
        assert b == (b / 16) * 16 + b % 16;
        assert s[0] == '%' && s[1] == HexDigit(b / 16) && s[2] == HexDigit(b % 16);
        assert HexValue(s[1]) * 16 + HexValue(s[2]) == b;
        assert !IsAlphanumeric(s[0] as int);
        assert s[3..] == rest;
        assert Decode(s) == Some([b] + bs[1..]);
      }
      assert bs == [b] + bs[1..];
    }
  }

  /** Every string the decoder accepts is the encoding of what it decodes to. */
  lemma {:induction false} EncodeDecode(s: string)
    requires Decode(s).Some?
    ensures Encode(Decode(s).value) == s
    decreases |s|
  {
    if s != [] {
      var bs := Decode(s).value;
      if IsAlphanumeric(s[0] as int) {
        EncodeDecode(s[1..]);
        assert bs == [s[0] as int as Byte] + Decode(s[1..]).value;
        assert bs[1..] == Decode(s[1..]).value;
        assert EncodeByte(bs[0]) == [s[0]];
        assert s == [s[0]] + s[1..];
      } else {
        var hi, lo := HexValue(s[1]), HexValue(s[2]);
        EncodeDecode(s[3..]);
        assert bs == [hi * 16 + lo] + Decode(s[3..]).value;
        assert bs[1..] == Decode(s[3..]).value;
        assert (hi * 16 + lo) / 16 == hi && (hi * 16 + lo) % 16 == lo;
        HexDigitOfValue(s[1]);
        HexDigitOfValue(s[2]);
        assert EncodeByte(bs[0]) == s[..3];
        assert s == s[..3] + s[3..];
      }
    }
  }

  /** The encoder is a bijection between byte strings and the strings `Decode` accepts. */
  lemma EncodeIffDecode(bs: seq<Byte>, s: string)
    ensures Encode(bs) == s <==> Decode(s) == Some(bs)
  {
    if Encode(bs) == s {
      DecodeEncode(bs);
    }
    if Decode(s) == Some(bs) {
      EncodeDecode(s);
    }
  }
}
