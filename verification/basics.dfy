/** Small shared vocabulary: optional values, image fingerprints, and a clamp used by the retry loop. */
module Basics {

  /** Python's `None` or a present value. */
  datatype Option<+T> = None | Some(value: T)

  /** The zero- or one-element sequence holding an optional value. */
  function OptionToSeq<T>(o: Option<T>): (s: seq<T>)
    ensures |s| <= 1
    ensures o.Some? <==> |s| == 1
    ensures o.Some? ==> s[0] == o.value
  {
    match o
    case None => []
    case Some(x) => [x]
  }

  /** The last element of a sequence, or `None` for the empty one. */
  function LastOf<T>(s: seq<T>): (o: Option<T>)
    ensures o.None? <==> s == []
    ensures s != [] ==> o == Some(s[|s| - 1])
  {
    if s == [] then None else Some(s[|s| - 1])
  }

  predicate IsLowerHexDigit(c: char) {
    '0' <= c <= '9' || 'a' <= c <= 'f'
  }

  /** What `hashlib.md5().hexdigest()` produces: 32 lower-case hexadecimal digits. */
  predicate IsMd5HexDigest(s: string) {
    |s| == 32 && forall i :: 0 <= i < |s| ==> IsLowerHexDigit(s[i])
  }

  /** An image fingerprint. It is never empty and never Python's `None`. */
  type Digest = s: string | IsMd5HexDigest(s) witness "00000000000000000000000000000000"

  /** The number of iterations of `range(n)`: `n` when positive, otherwise none. */
  function Max0(n: int): (r: nat)
    ensures n <= 0 ==> r == 0
    ensures n > 0 ==> r == n
  {
    if n > 0 then n else 0
  }
}
