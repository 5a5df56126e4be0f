/** Types shared by every part of the FileDrop model. */
module Prelude {

  datatype Option<+T> = None | Some(value: T)

  datatype Result<+T, +E> = Ok(value: T) | Err(error: E)

  type Byte = bv8

  type Bytes = seq<Byte>

  /** Identifiers are only ever compared, so any countable type will do. */
  type Uuid = nat

  /** A path is the list of its components. */
  type Path = seq<string>

  const U64: int := 0x1_0000_0000_0000_0000

  type U64Int = x: int | 0 <= x < U64

  /** 64-bit addition, which wraps around. */
  function AddU64(a: U64Int, n: nat): U64Int {
    (a + n) % U64
  }

  lemma AddU64Twice(a: U64Int, m: nat, n: nat)
    ensures AddU64(AddU64(a, m), n) == AddU64(a, m + n)
  {
    var k := a + m;
    assert k == k / U64 * U64 + k % U64;
    var b := k % U64 + n;
    assert b == b / U64 * U64 + b % U64;
    assert k + n == (k / U64 + b / U64) * U64 + b % U64;
  }

  /** What a header value can be once `to_str` accepted it: visible ASCII, space or tab. */
  predicate IsHeaderChar(c: char) {
    ' ' <= c <= '~' || c == '\t'
  }

  type HeaderText = s: string | forall i :: 0 <= i < |s| ==> IsHeaderChar(s[i])

  /** The part of `s` before the first `c`, or all of `s` when there is none. */
  function Before(s: string, c: char): (r: string)
    ensures r <= s && c !in r
    ensures |r| < |s| ==> s[|r|] == c
  {
    if s == [] || s[0] == c then [] else [s[0]] + Before(s[1..], c)
  }

  lemma {:induction false} BeforeUnique(s: string, c: char, p: string)
    requires p <= s && c !in p && (|p| == |s| || s[|p|] == c)
    ensures Before(s, c) == p
  {
    if s != [] && p != [] {
      BeforeUnique(s[1..], c, p[1..]);
    }
  }
}
