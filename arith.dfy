/** Facts of integer arithmetic that the solvers' proofs share: products
    with a symbolic factor, and Euclidean division. */
module Arith {
  /** A positive multiple of `g` is at least `g`. */
  lemma {:induction false} MulAtLeast(g: nat, n: int)
    requires n >= 1
    ensures g * n >= g
    decreases n
  {
    if n > 1 {
      MulAtLeast(g, n - 1);
      assert g * n == g * (n - 1) + g;
    }
  }

  /** The remainder is the one value in `0..g` that differs from `x` by a
      multiple of `g`. */
  lemma ModUnique(x: int, g: nat, k: int, r: int)
    requires g > 0 && 0 <= r < g && x == g * k + r
    ensures x % g == r
  {
    var d, m := x / g, x % g;
    assert x == g * d + m;
    assert k == d by {
      if k > d {
        MulAtLeast(g, k - d);
        assert false;
      } else if k < d {
        MulAtLeast(g, d - k);
        assert false;
      }
    }
  }

  /** Reducing before adding gives the same remainder as reducing after. */
  lemma ModAdd(x: int, c: int, g: nat)
    requires g > 0
    ensures (x % g + c) % g == (x + c) % g
  {
    var d, m := x / g, x % g;
    var e, r := (m + c) / g, (m + c) % g;
    assert x + c == g * d + g * e + r;
    assert g * d + g * e == g * (d + e);
    ModUnique(x + c, g, d + e, r);
  }

  /** Multiplying by the same natural number keeps the order. */
  lemma MulMonotone(p: nat, a: int, b: int)
    requires a <= b
    ensures p * a <= p * b
  {
    if a < b {
      MulAtLeast(p, b - a);
      assert p * b - p * a == p * (b - a);
    }
  }

  /** Bounds on a dividend bound its quotient. */
  lemma DivBounds(s: nat, p: nat, lo: nat, hi: nat)
    requires p > 0 && p * lo <= s < p * hi
    ensures lo <= s / p < hi
  {
    var q, r := s / p, s % p;
    assert s == p * q + r;
    if q >= hi {
      MulMonotone(p, hi, q);
      assert false;
    }
    if q < lo {
      MulMonotone(p, q + 1, lo);
      assert false;
    }
  }

  /** The absolute value. */
  function Abs(x: int): nat {
    if x < 0 then -x else x
  }

  /** Two to the power `n`. */
  function Pow2(n: nat): (r: nat)
    ensures r >= 1
  {
    if n == 0 then 1 else 2 * Pow2(n - 1)
  }
}
