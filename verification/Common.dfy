// Values shared by every module: Go's nil pointer becomes Option and Go's
// (value, error) pair becomes Result.
module Common {
  datatype Option<+T> = None | Some(value: T)

  datatype Result<+T> = Ok(value: T) | Err(error: string)

  predicate HasPrefix(s: string, prefix: string) {
    prefix <= s
  }

  /** pkg/cnb/buildpack_validation.go:54-61. */
  predicate Present(haystack: seq<string>, needle: string) {
    needle in haystack
  }

  function Max(a: int, b: int): int {
    if a < b then b else a
  }

  ghost predicate IsPermutation<T>(a: seq<T>, b: seq<T>) {
    multiset(a) == multiset(b)
  }

  lemma PermutationMembers<T>(a: seq<T>, b: seq<T>)
    requires IsPermutation(a, b)
    ensures |a| == |b|
    ensures forall x :: x in a <==> x in b
  {
    assert |multiset(a)| == |a| && |multiset(b)| == |b|;
    forall x ensures x in a <==> x in b {
      assert x in a <==> x in multiset(a);
      assert x in b <==> x in multiset(b);
    }
  }
}
