/** What several models share. */
module Common {
  datatype Option<+T> = None | Some(value: T)

  function Max(a: nat, b: nat): nat { if a < b then b else a }

  /** The last element of a prefix and what comes before it. */
  lemma Prefix<T>(s: seq<T>, n: nat)
    requires 0 < n <= |s|
    ensures |s[..n]| == n && s[..n][..n - 1] == s[..n - 1] && s[..n][n - 1] == s[n - 1]
  {}
}
