/**
 * Streaming digests (`security/checksum.rs`). SHA-256 itself is a parameter: any function
 * from byte strings to byte strings.
 */
module Checksum {
  import opened Prelude

  type Digest = Bytes -> Bytes

  const HASH_BUF_SIZE: nat := 1024 * 1024

  const HEX_DIGITS := "0123456789abcdef"

  function HexDigit(d: Byte): char
    requires d < 16
  {
    HEX_DIGITS[d as int]
  }

  function HexByte(b: Byte): (s: string)
    ensures |s| == 2
  {
    [HexDigit(b >> 4), HexDigit(b & 15)]
  }

  function HexEncode(bytes: Bytes): (s: string)
    ensures |s| == 2 * |bytes|
  {
    if bytes == [] then [] else HexByte(bytes[0]) + HexEncode(bytes[1..])
  }

  /** What the streaming hasher and the file re-reader both answer for the bytes they saw. */
  function HexDigest(sha: Digest, bytes: Bytes): string {
    HexEncode(sha(bytes))
  }

  lemma HexDigitInjective(a: Byte, b: Byte)
    requires a < 16 && b < 16 && HexDigit(a) == HexDigit(b)
    ensures a == b
  {
  }

  lemma HexByteInjective(a: Byte, b: Byte)
    requires HexByte(a) == HexByte(b)
    ensures a == b
  {
    assert HexByte(a)[0] == HexByte(b)[0] && HexByte(a)[1] == HexByte(b)[1];
    HexDigitInjective(a >> 4, b >> 4);
    HexDigitInjective(a & 15, b & 15);
    assert a == ((a >> 4) << 4) | (a & 15);
    assert b == ((b >> 4) << 4) | (b & 15);
  }

  /** Comparing hex strings is comparing digests. */
  lemma {:induction false} HexEncodeInjective(a: Bytes, b: Bytes)
    requires HexEncode(a) == HexEncode(b)
    ensures a == b
  {
    if a != [] {
      assert HexByte(a[0]) == HexEncode(a)[..2] == HexEncode(b)[..2] == HexByte(b[0]);
      HexByteInjective(a[0], b[0]);
      assert HexEncode(a)[2..] == HexEncode(a[1..]) && HexEncode(b)[2..] == HexEncode(b[1..]);
      HexEncodeInjective(a[1..], b[1..]);
    }
  }

  /** `text` spells `bytes`: two characters per byte, the lower-case digits of its high and its low half. */
  predicate SpellsHex(text: string, bytes: Bytes) {
    && |text| == 2 * |bytes|
    && forall i :: 0 <= i < |bytes| ==>
         && text[2 * i] == "0123456789abcdef"[(bytes[i] >> 4) as int]
         && text[2 * i + 1] == "0123456789abcdef"[(bytes[i] & 15) as int]
  }

  /** The two characters of byte `i` stand where they belong. */
  lemma {:induction false} HexEncodeAt(bytes: Bytes, i: nat)
    requires i < |bytes|
    ensures HexEncode(bytes)[2 * i] == HexByte(bytes[i])[0] && HexEncode(bytes)[2 * i + 1] == HexByte(bytes[i])[1]
  {
    hide HexByte;
    if i > 0 {
      HexEncodeAt(bytes[1..], i - 1);
      var rest := HexEncode(bytes[1..]);
      assert bytes[i] == bytes[1..][i - 1];
      assert HexEncode(bytes)[2 * i] == rest[2 * (i - 1)];
      assert HexEncode(bytes)[2 * i + 1] == rest[2 * (i - 1) + 1];
    }
  }

  /** The encoding of `bytes` spells them. */
  lemma HexEncodeSpells(bytes: Bytes)
    ensures SpellsHex(HexEncode(bytes), bytes)
  {
    hide HexEncode;
    var text := HexEncode(bytes);
    forall i | 0 <= i < |bytes|
      ensures text[2 * i] == "0123456789abcdef"[(bytes[i] >> 4) as int]
      ensures text[2 * i + 1] == "0123456789abcdef"[(bytes[i] & 15) as int]
    {
      HexEncodeAt(bytes, i);
    }
  }

  /** Nothing else spells them. */
  lemma SpellingIsUnique(text: string, bytes: Bytes)
    requires SpellsHex(text, bytes)
    ensures text == HexEncode(bytes)
  {
    HexEncodeSpells(bytes);
    var other := HexEncode(bytes);
    forall k | 0 <= k < |text| ensures text[k] == other[k] {
      var i := k / 2;
      assert k == 2 * i || k == 2 * i + 1;
      assert text[2 * i] == other[2 * i] && text[2 * i + 1] == other[2 * i + 1];
    }
  }

  /** Two contents have the same hex digest iff the hash does not tell them apart. */
  lemma HexDigestIff(sha: Digest, a: Bytes, b: Bytes)
    ensures HexDigest(sha, a) == HexDigest(sha, b) <==> sha(a) == sha(b)
    ensures SpellsHex(HexDigest(sha, a), sha(a))
  {
    HexEncodeSpells(sha(a));
    if HexDigest(sha, a) == HexDigest(sha, b) {
      HexEncodeInjective(sha(a), sha(b));
    }
  }

  class Sha256Hasher {
    const sha: Digest
    var fed: Bytes

    constructor (sha: Digest)
      ensures this.sha == sha && fed == []
    {
      this.sha := sha;
      fed := [];
    }

    method Update(chunk: Bytes)
      modifies this`fed
      ensures fed == old(fed) + chunk
    {
      fed := fed + chunk;
    }

    method FinalizeHex() returns (hex: string)
      ensures hex == HexDigest(sha, fed) && SpellsHex(hex, sha(fed))
    {
      HexEncodeSpells(sha(fed));
      hex := HexEncode(sha(fed));
    }
  }

  /**
   * Re-reads a file through one reused buffer. Each read may return any positive number of bytes
   * that fits, so the digest does not depend on how the reads fall; a read may also fail.
   */
  method Sha256File(sha: Digest, contents: Bytes, failingRead: Option<nat>) returns (r: Result<string, ()>)
    ensures r.Ok? ==> r.value == HexDigest(sha, contents) && SpellsHex(r.value, sha(contents))
    ensures failingRead.None? ==> r.Ok?
    ensures failingRead == Some(0) ==> r.Err?
  {
    var hasher := new Sha256Hasher(sha);
    var buf := new Byte[HASH_BUF_SIZE](_ => 0);
    var pos, readCount := 0, 0;
    while true
      invariant 0 <= pos <= |contents|
      invariant hasher.sha == sha && fresh(hasher) && fresh(buf)
      invariant hasher.fed == contents[..pos]
      invariant failingRead.Some? ==> readCount <= failingRead.value
      decreases |contents| - pos
    {
      if failingRead == Some(readCount) {
        return Err(());
      }
      if pos == |contents| {
        break;
      }
      var n :| 0 < n <= HASH_BUF_SIZE && pos + n <= |contents|;
      forall i | 0 <= i < n {
        buf[i] := contents[pos + i];
      }
      assert buf[..n] == contents[pos..pos + n];
      hasher.Update(buf[..n]);
      assert contents[..pos] + contents[pos..pos + n] == contents[..pos + n];
      pos, readCount := pos + n, readCount + 1;
    }
    assert contents[..pos] == contents;
    var hex := hasher.FinalizeHex();
    r := Ok(hex);
  }
}
