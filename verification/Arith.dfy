/** Facts about integer multiplication, floor division and remainders. */
module Arith {
  import opened Base

  lemma MulMono(x: int, y: int, z: int)
    requires x <= y && 0 <= z
    ensures x * z <= y * z
  {
  }

  lemma MulMono2(a: int, b: int, c: int, d: int)
    requires 0 <= a <= c && 0 <= b <= d
    ensures 0 <= a * b <= c * d
  {
  }

  lemma MulCancel(x: int, y: int, z: int)
    requires x * z <= y * z && 0 < z
    ensures x <= y
  {
  }

  /** Floor division is the upper adjoint of multiplication. */
  lemma DivGalois(n: int, d: int, q: int)
    requires 0 < d
    ensures q <= n / d <==> q * d <= n
  {
    var r := n % d;
    assert n == n / d * d + r && 0 <= r < d;
    if q <= n / d {
      MulMono(q, n / d, d);
    } else {
      MulMono(n / d + 1, q, d);
      assert (n / d + 1) * d == n / d * d + d;
    }
  }

  lemma DivFloor(n: int, d: int)
    requires 0 < d
    ensures n / d * d <= n < (n / d + 1) * d
  {
  }

  lemma DivNonneg(n: int, d: int)
    requires 0 < d && 0 <= n
    ensures 0 <= n / d <= n
  {
    DivGalois(n, d, 0);
    DivFloor(n, d);
    if n < n / d {
      MulMono(1, d, n / d);
    }
  }

  lemma DivMono(m: int, n: int, d: int)
    requires 0 < d && m <= n
    ensures m / d <= n / d
  {
    DivFloor(m, d);
    DivGalois(n, d, m / d);
  }

  /** `q` is the floor of `n / d` when it is the last multiple that fits. */
  lemma DivUnique(n: int, d: int, q: int)
    requires 0 < d && q * d <= n < (q + 1) * d
    ensures n / d == q
  {
    DivGalois(n, d, q);
    DivGalois(n, d, q + 1);
  }

  /** Dividing in two steps floors to the same value as dividing once. */
  lemma DivDiv(n: int, a: int, b: int)
    requires 0 <= n && 0 < a && 0 < b
    ensures 0 < a * b && n / a / b == n / (a * b)
  {
    MulMono2(1, 1, a, b);
    var q := n / a / b;
    DivGalois(n / a, b, q);
    DivGalois(n, a, q * b);
    assert q * b * a == q * (a * b);
    DivGalois(n / a, b, q + 1);
    DivGalois(n, a, (q + 1) * b);
    assert (q + 1) * b * a == (q + 1) * (a * b);
    DivUnique(n, a * b, q);
  }

  function CeilDiv(n: int, d: int): int
    requires 0 < d
  {
    n / d + (if n % d != 0 then 1 else 0)
  }

  /** Ceiling division is the lower adjoint of multiplication. */
  lemma CeilGalois(n: int, d: int, x: int)
    requires 0 < d
    ensures CeilDiv(n, d) <= x <==> n <= x * d
  {
    var q, r := n / d, n % d;
    assert n == q * d + r && 0 <= r < d;
    if r == 0 {
      if q <= x { MulMono(q, x, d); } else { MulMono(x + 1, q, d); assert (x + 1) * d == x * d + d; }
    } else {
      if q + 1 <= x {
        MulMono(q + 1, x, d);
        assert (q + 1) * d == q * d + d;
      } else {
        MulMono(x, q, d);
      }
    }
  }

  function Pow(b: nat, e: nat): nat {
    if e == 0 then 1 else b * Pow(b, e - 1)
  }

  lemma {:induction false} PowPositive(b: nat, e: nat)
    requires 0 < b
    ensures 0 < Pow(b, e)
  {
    if e > 0 {
      PowPositive(b, e - 1);
      MulMono2(1, 1, b, Pow(b, e - 1));
    }
  }

  /** Wrapping is the identity on `i128` and forgets multiples of 2^128. */
  lemma WrapExact(x: int)
    requires InI128(x)
    ensures Wrap(x) == x
  {
  }

  lemma WrapRange(x: int)
    ensures InI128(Wrap(x))
  {
  }

  lemma WrapAdd(x: int, y: int)
    ensures Wrap(Wrap(x) + Wrap(y)) == Wrap(x + y)
  {
  }

  lemma WrapSub(x: int, y: int)
    ensures Wrap(Wrap(x) - Wrap(y)) == Wrap(x - y)
  {
  }
}
