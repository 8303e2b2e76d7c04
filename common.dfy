/** Types shared by the crawler model: Go's int8 and the usual failure wrappers. */
module Common {

  /** Go's `int8`, the type of the crawl depth and of every depth counter. */
  newtype int8 = x: int | -128 <= x < 128

  datatype Option<+T> = None | Some(value: T)

  datatype Result<+T, +E> = Success(value: T) | Failure(error: E)

  /** No value occurs twice in `s`. */
  predicate NoDuplicates<T(==)>(s: seq<T>) {
    forall i, j :: 0 <= i < j < |s| ==> s[i] != s[j]
  }

  /** Go's `strings.Contains(s, p)`: `p` occurs in `s` as a contiguous block. */
  predicate Contains(s: string, p: string)
    decreases |s|
  {
    if |s| < |p| then false
    else s[..|p|] == p || Contains(s[1..], p)
  }

  /** Every character of `p` occurs in any `s` that contains it. */
  lemma {:induction false} ContainedCharsOccur(s: string, p: string, k: nat)
    requires Contains(s, p) && k < |p|
    ensures p[k] in s
    decreases |s|
  {
    if s[..|p|] == p {
      assert s[k] == p[k];
    } else {
      ContainedCharsOccur(s[1..], p, k);
      var j :| 0 <= j < |s[1..]| && s[1..][j] == p[k];
      assert s[j + 1] == p[k];
    }
  }
}
