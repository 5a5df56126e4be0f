/** What a positioned write does to the contents of a file. */
module StagedFile {
  import opened Prelude

  function Zeros(n: nat): (z: Bytes)
    ensures |z| == n
  {
    seq(n, _ => 0)
  }

  /** Writing nothing changes nothing; writing past the end leaves a hole of zeros. */
  function WriteAt(file: Bytes, pos: nat, data: Bytes): (r: Bytes)
    ensures data == [] ==> r == file
    ensures data != [] ==> |r| == if pos + |data| < |file| then |file| else pos + |data|
    ensures data != [] ==> r[pos..pos + |data|] == data
  {
    if data == [] then file
    else
      var padded := if |file| < pos then file + Zeros(pos - |file|) else file;
      padded[..pos] + data + (if pos + |data| < |file| then file[pos + |data|..] else [])
  }

  /** Each byte after a write comes from the data, from the file, or from the hole. */
  lemma WriteAtIndex(file: Bytes, pos: nat, data: Bytes, i: nat)
    requires data != [] && i < |WriteAt(file, pos, data)|
    ensures WriteAt(file, pos, data)[i] ==
            if pos <= i < pos + |data| then data[i - pos] else if i < |file| then file[i] else 0
  {
  }

  /** Two consecutive writes are one write of both pieces. */
  lemma WriteAtCompose(file: Bytes, pos: nat, a: Bytes, b: Bytes)
    ensures WriteAt(WriteAt(file, pos, a), pos + |a|, b) == WriteAt(file, pos, a + b)
  {
    hide WriteAt;
    if a == [] {
      assert a + b == b;
    } else if b == [] {
      assert a + b == a;
    } else {
      var one := WriteAt(file, pos, a);
      var two := WriteAt(one, pos + |a|, b);
      var both := WriteAt(file, pos, a + b);
      forall i | 0 <= i < |two| ensures |two| == |both| && two[i] == both[i] {
        WriteAtIndex(file, pos, a + b, i);
        WriteAtIndex(one, pos + |a|, b, i);
        if i < |one| {
          WriteAtIndex(file, pos, a, i);
        }
      }
    }
  }

  /** A fresh file holds exactly what was written from its start. */
  lemma WriteAtStart(data: Bytes)
    ensures WriteAt([], 0, data) == data
  {
  }

  /**
   * Overwriting a prefix of `source` with the bytes `source` has at that place keeps it a prefix,
   * and reaching the end of `source` makes it all of `source`.
   */
  lemma WriteAtKeepsPrefix(source: Bytes, part: Bytes, pos: nat, data: Bytes)
    requires part <= source && pos <= |part|
    requires pos + |data| <= |source| && data == source[pos..pos + |data|]
    ensures WriteAt(part, pos, data) <= source
    ensures pos + |data| == |source| ==> WriteAt(part, pos, data) == source
    ensures pos + |data| <= |WriteAt(part, pos, data)|
  {
    var r := WriteAt(part, pos, data);
    forall i | 0 <= i < |r| ensures |r| <= |source| && r[i] == source[i] {
      if data != [] && pos <= i < pos + |data| {
        assert r[i] == data[i - pos];
      }
    }
  }
}
