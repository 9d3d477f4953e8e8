/** Sums of a measure over a sequence. */
module Tallies {

  function Tally<T>(s: seq<T>, f: T -> int): int {
    if s == [] then 0 else Tally(s[..|s| - 1], f) + f(s[|s| - 1])
  }

  lemma {:induction false} TallyConcat<T>(a: seq<T>, b: seq<T>, f: T -> int)
    ensures Tally(a + b, f) == Tally(a, f) + Tally(b, f)
    decreases |b|
  {
    if b == [] {
      assert a + b == a;
    } else {
      TallyConcat(a, b[..|b| - 1], f);
      assert (a + b)[..|a + b| - 1] == a + b[..|b| - 1];
    }
  }

  lemma TallyAppend<T>(s: seq<T>, x: T, f: T -> int)
    ensures Tally(s + [x], f) == Tally(s, f) + f(x)
  {
    assert (s + [x])[..|s|] == s;
  }

  lemma {:induction false} TallyGap<T>(s: seq<T>, k: nat, f: T -> int)
    requires k < |s|
    ensures Tally(s[..k] + s[k + 1..], f) == Tally(s, f) - f(s[k])
  {
    var n := |s| - 1;
    var r := s[..k] + s[k + 1..];
    if k == n {
      assert r == s[..n];
    } else {
      TallyGap(s[..n], k, f);
      assert r[..|r| - 1] == s[..n][..k] + s[..n][k + 1..];
    }
  }

  lemma {:induction false} TallyUpdate<T>(s: seq<T>, i: nat, x: T, f: T -> int)
    requires i < |s|
    ensures Tally(s[i := x], f) == Tally(s, f) - f(s[i]) + f(x)
  {
    var n := |s| - 1;
    if i == n {
      assert s[i := x][..n] == s[..n];
    } else {
      TallyUpdate(s[..n], i, x, f);
      assert s[i := x][..n] == s[..n][i := x];
    }
  }

  lemma {:induction false} TallyBound<T>(s: seq<T>, f: T -> int)
    requires forall k :: 0 <= k < |s| ==> f(s[k]) >= 0
    ensures 0 <= Tally(s, f) && forall k :: 0 <= k < |s| ==> f(s[k]) <= Tally(s, f)
  {
    if s == [] {
    } else {
      TallyBound(s[..|s| - 1], f);
    }
  }

  lemma {:induction false} TallyZero<T>(s: seq<T>, f: T -> int)
    requires forall k :: 0 <= k < |s| ==> f(s[k]) == 0
    ensures Tally(s, f) == 0
  {
    if s == [] {
    } else {
      TallyZero(s[..|s| - 1], f);
    }
  }

  /** If every position counts one, the sum is the length. */
  lemma {:induction false} TallyOnes<T>(s: seq<T>, f: T -> int)
    requires forall k :: 0 <= k < |s| ==> f(s[k]) == 1
    ensures Tally(s, f) == |s|
  {
    if s == [] {
    } else {
      TallyOnes(s[..|s| - 1], f);
    }
  }
}
