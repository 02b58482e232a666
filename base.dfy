/** Option and Result: the nullable references and the exceptions of the
    original code become values. */
module Base {

  datatype Option<+T> = None | Some(value: T)

  datatype Result<+T, +E> = Ok(value: T) | Err(error: E)

  /** `Stream.limit(n)`: the first `n` elements, or all of them when there are fewer. */
  function Take<T>(s: seq<T>, n: nat): (r: seq<T>)
    ensures |r| <= n && |r| <= |s|
    ensures |r| < n ==> r == s
    ensures r == s[..|r|]
  {
    if n <= |s| then s[..n] else s
  }

  lemma TakeAppend<T>(a: seq<T>, b: seq<T>, n: nat)
    ensures |a| >= n ==> Take(a + b, n) == Take(a, n)
    ensures |a| < n ==> Take(a + b, n) == a + Take(b, n - |a|)
  {
    if |a| >= n {
      assert (a + b)[..n] == a[..n];
    } else if n - |a| <= |b| {
      assert (a + b)[..n] == a + b[..n - |a|];
    }
  }
}
