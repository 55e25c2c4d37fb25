/** Remainders, as ring indices use them. */
module Remainders {

  /** C's x % m on naturals, named so that proofs can keep it folded. */
  function Wrap(x: nat, m: nat): (r: nat)
    requires m >= 1
    ensures r < m
  {
    x % m
  }

  lemma {:induction false} Monotone(a: nat, b: nat, m: nat)
    requires a <= b
    ensures a * m <= b * m
    ensures a < b ==> a * m + m <= b * m
  {
    if a < b {
      Monotone(a, b - 1, m);
      assert b * m == (b - 1) * m + m;
    }
  }

  /** Division with remainder is unique. */
  lemma Unique(x: nat, q: nat, r: nat, m: nat)
    requires m >= 1 && r < m && x == q * m + r
    ensures x / m == q && Wrap(x, m) == r
  {
    var p := x / m;
    assert x == p * m + x % m;
    if p < q {
      Monotone(p, q, m);
      assert false;
    } else if q < p {
      Monotone(q, p, m);
      assert false;
    }
  }

  lemma Small(x: nat, m: nat)
    requires x < m
    ensures Wrap(x, m) == x
  {
    Unique(x, 0, x, m);
  }

  lemma AddModulus(x: nat, m: nat)
    requires m >= 1
    ensures Wrap(x + m, m) == Wrap(x, m)
  {
    var q := x / m;
    assert x == q * m + x % m;
    assert (q + 1) * m == q * m + m;
    Unique(x + m, q + 1, x % m, m);
  }

  /** Advancing an index round a ring of m slots. */
  lemma Next(x: nat, m: nat)
    requires m >= 1
    ensures Wrap(x + 1, m) == Wrap(Wrap(x, m) + 1, m)
  {
    var q, r := x / m, x % m;
    assert x == q * m + r;
    if r + 1 < m {
      Unique(x + 1, q, r + 1, m);
      Small(r + 1, m);
    } else {
      assert (q + 1) * m == q * m + m;
      Unique(x + 1, q + 1, 0, m);
      Unique(r + 1, 1, 0, m);
    }
  }

  /** Going k steps from index x is going k steps from its slot. */
  lemma {:induction false} Walk(x: nat, k: nat, m: nat)
    requires m >= 1
    ensures Wrap(x + k, m) == Wrap(Wrap(x, m) + k, m)
  {
    hide Wrap;
    if k == 0 {
      Small(Wrap(x, m), m);
    } else {
      Walk(x, k - 1, m);
      Next(x + k - 1, m);
      Next(Wrap(x, m) + k - 1, m);
    }
  }

  /** Indices less than m apart share a slot only when they are equal. */
  lemma Apart(x: nat, y: nat, m: nat)
    requires x < y < x + m
    ensures Wrap(x, m) != Wrap(y, m)
  {
    if x % m == y % m {
      var p, q := x / m, y / m;
      assert x == p * m + x % m;
      assert y == q * m + y % m;
      if q <= p {
        Monotone(q, p, m);
        assert false;
      } else {
        Monotone(p, q, m);
        assert false;
      }
    }
  }
}
