/** Walking round a ring of `n` positions. */
module Rotation {

  function Turn(start: nat, offset: nat, n: nat): (i: nat)
    requires n > 0
    ensures i < n
  {
    (start + offset) % n
  }

  /** A full turn visits every position. */
  lemma TurnCovers(start: nat, n: nat, i: nat)
    requires i < n
    ensures exists offset :: 0 <= offset < n && Turn(start, offset, n) == i
  {
    var r := start % n;
    var q := start / n;
    assert start == q * n + r;
    if i >= r {
      ModPlus(q, n, i);
      assert Turn(start, i - r, n) == i;
    } else {
      ModPlus(q + 1, n, i);
      assert start + (i - r + n) == (q + 1) * n + i;
      assert Turn(start, i - r + n, n) == i;
    }
  }

  /** And no position twice. */
  lemma TurnOnce(start: nat, a: nat, b: nat, n: nat)
    requires a < b < n
    ensures Turn(start, a, n) != Turn(start, b, n)
  {
    var r := start % n;
    assert start == start / n * n + r;
    TurnFrom(start / n, r, a, n);
    TurnFrom(start / n, r, b, n);
  }

  lemma TurnFrom(q: nat, r: nat, offset: nat, n: nat)
    requires r < n && offset < n
    ensures (q * n + r + offset) % n == if r + offset < n then r + offset else r + offset - n
  {
    if r + offset < n {
      ModPlus(q, n, r + offset);
    } else {
      ModPlus(q + 1, n, r + offset - n);
      assert (q + 1) * n == q * n + n;
    }
  }

  lemma ModPlus(q: nat, n: nat, r: nat)
    requires r < n
    ensures (q * n + r) % n == r
  {
    var x := q * n + r;
    var q' := x / n;
    if q' > q {
      MulGrows(q' - q, n);
    } else if q' < q {
      MulGrows(q - q', n);
    }
  }

  lemma {:induction false} MulGrows(k: nat, n: nat)
    requires k > 0
    ensures k * n >= n
  {
    if k == 1 {
    } else {
      MulGrows(k - 1, n);
      assert k * n == (k - 1) * n + n;
    }
  }
}
