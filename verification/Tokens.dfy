/** Pairing tokens: comparison, format, encoding (`security/token.rs`, `pairing/token.rs`). Text is UTF-8 bytes. */
module Tokens {
  import opened Prelude

  const TOKEN_BYTE_LEN: nat := 32

  const EXPECTED_ENCODED_LEN: nat := 43

  type Text = seq<Byte>

  /** Collects every difference with an or of exclusive ors and looks only at the end. */
  method TokensMatch(a: Text, b: Text) returns (matching: bool)
    ensures matching <==> a == b
  {
    if |a| != |b| {
      return false;
    }
    var diff: Byte := 0;
    for k := 0 to |a|
      invariant diff == 0 <==> a[..k] == b[..k]
    {
      DiffersIffSet(diff, a[k], b[k]);
      assert a[..k + 1] == a[..k] + [a[k]] && b[..k + 1] == b[..k] + [b[k]];
      diff := diff | (a[k] ^ b[k]);
    }
    assert a[..|a|] == a && b[..|b|] == b;
    return diff == 0;
  }

  lemma DiffersIffSet(diff: Byte, x: Byte, y: Byte)
    ensures diff | (x ^ y) == 0 <==> diff == 0 && x == y
  {
  }

  predicate IsTokenChar(c: Byte) {
    (65 <= c <= 90) || (97 <= c <= 122) || (48 <= c <= 57) || c == 45 || c == 95
  }

  /** The format check: exact length, then alphabet. */
  method ValidateTokenFormat(token: Text) returns (ok: bool)
    ensures ok <==> |token| == EXPECTED_ENCODED_LEN && forall c :: c in token ==> IsTokenChar(c)
  {
    if |token| != EXPECTED_ENCODED_LEN {
      return false;
    }
    for k := 0 to |token|
      invariant forall c :: c in token[..k] ==> IsTokenChar(c)
    {
      assert token[..k + 1] == token[..k] + [token[k]];
      if !IsTokenChar(token[k]) {
        return false;
      }
    }
    assert token[..|token|] == token;
    return true;
  }

  /** The URL-safe alphabet (section 5 of RFC 4648). */
  function Letter(v: Byte): (c: Byte)
    requires v < 64
    ensures IsTokenChar(c)
  {
    if v < 26 then v + 65
    else if v < 52 then v + 71
    else if v < 62 then v - 4
    else if v == 62 then 45
    else 95
  }

  function Unletter(c: Byte): Byte {
    if 65 <= c <= 90 then c - 65
    else if 97 <= c <= 122 then c - 71
    else if 48 <= c <= 57 then c + 4
    else if c == 45 then 62
    else 63
  }

  /** The four six-bit values that three bytes make. */
  function Sextets(b0: Byte, b1: Byte, b2: Byte): (r: (Byte, Byte, Byte, Byte))
    ensures r.0 < 64 && r.1 < 64 && r.2 < 64 && r.3 < 64
  {
    (b0 >> 2, ((b0 & 3) << 4) | (b1 >> 4), ((b1 & 15) << 2) | (b2 >> 6), b2 & 63)
  }

  /** Byte `i`, or zero past the end. */
  function ByteAt(bytes: Bytes, i: nat): Byte {
    if i < |bytes| then bytes[i] else 0
  }

  /** Unpadded encoding: three bytes to four letters, a last one or two bytes, with zeros behind, to two or three. */
  function Encode(bytes: Bytes): (token: Text)
    ensures |token| == (|bytes| * 4 + 2) / 3
    ensures forall c :: c in token ==> IsTokenChar(c)
  {
    if bytes == [] then []
    else
      var s := Sextets(ByteAt(bytes, 0), ByteAt(bytes, 1), ByteAt(bytes, 2));
      if |bytes| == 1 then [Letter(s.0), Letter(s.1)]
      else if |bytes| == 2 then [Letter(s.0), Letter(s.1), Letter(s.2)]
      else [Letter(s.0), Letter(s.1), Letter(s.2), Letter(s.3)] + Encode(bytes[3..])
  }

  /** The first, second and third byte that neighbouring letters hold between them. */
  function First(a: Byte, b: Byte): Byte {
    (Unletter(a) << 2) | (Unletter(b) >> 4)
  }

  function Second(a: Byte, b: Byte): Byte {
    (Unletter(a) << 4) | (Unletter(b) >> 2)
  }

  function Third(a: Byte, b: Byte): Byte {
    (Unletter(a) << 6) | Unletter(b)
  }

  function Decode(token: Text): Bytes {
    if |token| < 2 then []
    else if |token| == 2 then [First(token[0], token[1])]
    else if |token| == 3 then [First(token[0], token[1]), Second(token[1], token[2])]
    else [First(token[0], token[1]), Second(token[1], token[2]), Third(token[2], token[3])] + Decode(token[4..])
  }

  lemma LetterRoundTrip(v: Byte)
    requires v < 64
    ensures Unletter(Letter(v)) == v
  {
  }

  lemma Join1(b0: Byte, b1: Byte)
    ensures ((b0 >> 2) << 2) | ((((b0 & 3) << 4) | (b1 >> 4)) >> 4) == b0
  {
  }

  lemma Join2(b0: Byte, b1: Byte, b2: Byte)
    ensures ((((b0 & 3) << 4) | (b1 >> 4)) << 4) | ((((b1 & 15) << 2) | (b2 >> 6)) >> 2) == b1
  {
  }

  lemma Join3(b1: Byte, b2: Byte)
    ensures ((((b1 & 15) << 2) | (b2 >> 6)) << 6) | (b2 & 63) == b2
  {
  }

  lemma GroupRoundTrip(b0: Byte, b1: Byte, b2: Byte)
    ensures var s := Sextets(b0, b1, b2);
            && First(Letter(s.0), Letter(s.1)) == b0
            && Second(Letter(s.1), Letter(s.2)) == b1
            && Third(Letter(s.2), Letter(s.3)) == b2
  {
    var s := Sextets(b0, b1, b2);
    LetterRoundTrip(s.0);
    LetterRoundTrip(s.1);
    LetterRoundTrip(s.2);
    LetterRoundTrip(s.3);
    hide Letter, Unletter;
    Join1(b0, b1);
    Join2(b0, b1, b2);
    Join3(b1, b2);
  }

  /** Decoding the token of any bytes gives the bytes back. */
  lemma {:induction false} DecodeEncode(bytes: Bytes)
    ensures Decode(Encode(bytes)) == bytes
  {
    hide Letter, Unletter, Sextets, First, Second, Third;
    if bytes != [] {
      GroupRoundTrip(ByteAt(bytes, 0), ByteAt(bytes, 1), ByteAt(bytes, 2));
      if |bytes| > 2 {
        DecodeEncode(bytes[3..]);
        assert Encode(bytes)[4..] == Encode(bytes[3..]);
      }
    }
  }

  /** Bit `n` of the bytes read from the highest bit of the first; past the end there are zeros. */
  function Bit(bytes: Bytes, n: nat): Byte {
    if n / 8 < |bytes| then (bytes[n / 8] >> (7 - n % 8)) & 1 else 0
  }

  /** The six bits from bit `n` on, as a number. */
  function SixBits(bytes: Bytes, n: nat): Byte {
    Join6(Bit(bytes, n), Bit(bytes, n + 1), Bit(bytes, n + 2), Bit(bytes, n + 3), Bit(bytes, n + 4), Bit(bytes, n + 5))
  }

  /** Six single bits put side by side. */
  function Join6(b5: Byte, b4: Byte, b3: Byte, b2: Byte, b1: Byte, b0: Byte): Byte {
    (b5 << 5) | (b4 << 4) | (b3 << 3) | (b2 << 2) | (b1 << 1) | b0
  }

  function BitOf(b: Byte, i: nat): Byte
    requires i < 8
  {
    (b >> i) & 1
  }

  /** The six-bit values, bit by bit. */
  lemma SextetBits(b0: Byte, b1: Byte, b2: Byte)
    ensures var s := Sextets(b0, b1, b2);
            && s.0 == Join6(BitOf(b0, 7), BitOf(b0, 6), BitOf(b0, 5), BitOf(b0, 4), BitOf(b0, 3), BitOf(b0, 2))
            && s.1 == Join6(BitOf(b0, 1), BitOf(b0, 0), BitOf(b1, 7), BitOf(b1, 6), BitOf(b1, 5), BitOf(b1, 4))
            && s.2 == Join6(BitOf(b1, 3), BitOf(b1, 2), BitOf(b1, 1), BitOf(b1, 0), BitOf(b2, 7), BitOf(b2, 6))
            && s.3 == Join6(BitOf(b2, 5), BitOf(b2, 4), BitOf(b2, 3), BitOf(b2, 2), BitOf(b2, 1), BitOf(b2, 0))
  {
  }

  /** Bit `j` of byte `i`, from the highest. */
  lemma BitOfByte(bytes: Bytes, i: nat, j: nat)
    requires j < 8
    ensures Bit(bytes, 8 * i + j) == BitOf(ByteAt(bytes, i), 7 - j)
  {
    assert (8 * i + j) / 8 == i && (8 * i + j) % 8 == j;
  }

  lemma BitsOfByte(bytes: Bytes, i: nat)
    ensures forall n :: 8 * i <= n < 8 * i + 8 ==> Bit(bytes, n) == BitOf(ByteAt(bytes, i), 8 * i + 7 - n)
  {
    hide Bit, BitOf;
    forall n | 8 * i <= n < 8 * i + 8 ensures Bit(bytes, n) == BitOf(ByteAt(bytes, i), 8 * i + 7 - n) {
      BitOfByte(bytes, i, n - 8 * i);
    }
  }

  /** The first four groups of six bits are those of the first three bytes. */
  lemma GroupBits(bytes: Bytes)
    ensures var s := Sextets(ByteAt(bytes, 0), ByteAt(bytes, 1), ByteAt(bytes, 2));
            && SixBits(bytes, 0) == s.0 && SixBits(bytes, 6) == s.1
            && SixBits(bytes, 12) == s.2 && SixBits(bytes, 18) == s.3
  {
    hide Bit, BitOf, Join6, ByteAt, Sextets;
    BitsOfByte(bytes, 0);
    BitsOfByte(bytes, 1);
    BitsOfByte(bytes, 2);
    SextetBits(ByteAt(bytes, 0), ByteAt(bytes, 1), ByteAt(bytes, 2));
  }

  lemma LaterBits(bytes: Bytes, n: nat)
    requires |bytes| >= 3
    ensures Bit(bytes, n + 24) == Bit(bytes[3..], n)
  {
  }

  /** The alphabet of section 5 of RFC 4648: capital letters, small letters, digits, minus and underscore, in order. */
  lemma LetterExact(v: Byte)
    requires v < 63
    ensures Letter(0) == 'A' as Byte && Letter(26) == 'a' as Byte && Letter(52) == '0' as Byte
    ensures Letter(62) == '-' as Byte && Letter(63) == '_' as Byte
    ensures v != 25 && v != 51 && v != 61 && v != 62 ==> Letter(v + 1) == Letter(v) + 1
  {
  }

  /** The first characters stand for the first three bytes, and the others for the rest. */
  lemma EncodeParts(bytes: Bytes)
    requires bytes != []
    ensures var s, token := Sextets(ByteAt(bytes, 0), ByteAt(bytes, 1), ByteAt(bytes, 2)), Encode(bytes);
            && |token| >= 2 && token[0] == Letter(s.0) && token[1] == Letter(s.1)
            && (|token| >= 3 ==> token[2] == Letter(s.2))
            && (|token| >= 4 ==> token[3] == Letter(s.3) && |bytes| >= 3 && token[4..] == Encode(bytes[3..]))
  {
    hide Letter, Sextets, ByteAt, IsTokenChar;
  }

  /**
   * What the encoding is: each character stands for the next six bits, the first of them being the highest bit of the
   * first byte, and zeros following the last byte.
   */
  lemma {:induction false} EncodeExact(bytes: Bytes, k: nat)
    requires k < |Encode(bytes)|
    ensures SixBits(bytes, 6 * k) < 64 && Encode(bytes)[k] == Letter(SixBits(bytes, 6 * k))
    decreases |bytes|
  {
    hide Letter, SixBits, Sextets, ByteAt, IsTokenChar;
    if bytes != [] {
      GroupBits(bytes);
      EncodeParts(bytes);
      hide Encode;
      if k >= 4 {
        SixBitsLater(bytes, 6 * (k - 4));
        EncodeExact(bytes[3..], k - 4);
        assert Encode(bytes)[k] == Encode(bytes)[4..][k - 4];
        assert 6 * (k - 4) + 24 == 6 * k;
      } else {
        assert k == 0 || k == 1 || k == 2 || k == 3;
      }
    }
  }

  lemma SixBitsLater(bytes: Bytes, n: nat)
    requires |bytes| >= 3
    ensures SixBits(bytes, n + 24) == SixBits(bytes[3..], n)
  {
    hide Bit;
    LaterBits(bytes, n);
    LaterBits(bytes, n + 1);
    LaterBits(bytes, n + 2);
    LaterBits(bytes, n + 3);
    LaterBits(bytes, n + 4);
    LaterBits(bytes, n + 5);
  }

  /** A fresh token for the random bytes drawn passes the format check, and no other draw gives the same token. */
  method GeneratePairingToken(random: Bytes) returns (token: Text)
    requires |random| == TOKEN_BYTE_LEN
    ensures |token| == EXPECTED_ENCODED_LEN && forall c :: c in token ==> IsTokenChar(c)
    ensures Decode(token) == random
    ensures forall k :: 0 <= k < |token| ==> SixBits(random, 6 * k) < 64 && token[k] == Letter(SixBits(random, 6 * k))
  {
    hide Letter, SixBits;
    DecodeEncode(random);
    token := Encode(random);
    forall k | 0 <= k < |token| ensures SixBits(random, 6 * k) < 64 && token[k] == Letter(SixBits(random, 6 * k)) {
      EncodeExact(random, k);
    }
  }

  /** Different draws give tokens that do not match. */
  lemma TokensDiffer(a: Bytes, b: Bytes)
    ensures Encode(a) == Encode(b) <==> a == b
  {
    DecodeEncode(a);
    DecodeEncode(b);
  }
}
