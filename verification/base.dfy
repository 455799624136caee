/** Shared vocabulary of the model: bytes, optional values, results, and the
    Python slice `s[:n]` that several components use to cut text. */
module Base {

  /** One octet, as Python's `bytes` and JavaScript's `Uint8Array` hold them. */
  newtype Byte = x: int | 0 <= x < 256

  type Bytes = seq<Byte>

  datatype Option<+T> = None | Some(value: T)

  datatype Result<+T, +E> = Ok(value: T) | Err(error: E)

  function Min(a: int, b: int): int { if a <= b then a else b }

  /** Python's `s[:n]` for a non-negative bound: the longest prefix of `s`
      holding at most `n` elements. */
  function Take<T>(s: seq<T>, n: nat): (r: seq<T>)
    ensures r <= s
    ensures |r| == Min(|s|, n)
  {
    if |s| <= n then s else s[..n]
  }

  /** A prefix no longer than the bound is kept whole. */
  lemma TakeShort<T>(s: seq<T>, n: nat)
    requires |s| <= n
    ensures Take(s, n) == s
  {
  }

  /** Taking twice with the same bound changes nothing the second time. */
  lemma TakeIdempotent<T>(s: seq<T>, n: nat)
    ensures Take(Take(s, n), n) == Take(s, n)
  {
  }
}
