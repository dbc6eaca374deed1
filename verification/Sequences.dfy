/** Cutting sequences up and joining them again. */
module Sequences {
  lemma SliceOfSuffix<T>(s: seq<T>, d: nat, i: nat, n: nat)
    requires d <= i && i + n <= |s|
    ensures s[d..][i - d..i - d + n] == s[i..i + n]
  {
  }

  // The pieces of a chain of four, with more behind it.
  lemma FourPieces<T>(a: seq<T>, b: seq<T>, c: seq<T>, d: seq<T>, r: seq<T>)
    ensures var s := (a + (b + (c + d))) + r;
      var (i, j, k) := (|a| + |b|, |a| + |b| + |c|, |a| + |b| + |c| + |d|);
      k <= |s| && s[..|a|] == a && s[|a|..i] == b && s[i..j] == c && s[j..k] == d && s[k..] == r
  {
    var s := (a + (b + (c + d))) + r;
    assert s == a + (b + (c + (d + r)));
    assert s[|a|..] == b + (c + (d + r));
    assert s[|a| + |b|..] == c + (d + r);
    assert s[|a| + |b| + |c|..] == d + r;
  }

  lemma ThreePieces<T>(a: seq<T>, b: seq<T>, r: seq<T>)
    ensures var s := a + (b + r);
      s[..|a|] == a && s[|a|..] == b + r && s[|a|..|a| + |b|] == b && s[|a| + |b|..] == r
  {
    var s := a + (b + r);
    assert s[|a|..] == b + r;
  }

  // Cutting a front at three places and joining it again.
  lemma FourCuts<T>(s: seq<T>, i: nat, j: nat, k: nat, n: nat)
    requires i <= j <= k <= n <= |s|
    ensures s[..i] + (s[i..j] + (s[j..k] + s[k..n])) == s[..n]
  {
    assert s[j..k] + s[k..n] == s[j..n];
    assert s[i..j] + s[j..n] == s[i..n];
  }
}
