/** Positions on a circle of `c` slots, and the remainders that step between them. */
module Circle {

  /** Steps from slot `a` forward to slot `b` on a circle of `c` slots. */
  function Dist(c: nat, a: nat, b: nat): (d: nat)
    requires a < c && b < c
    ensures d < c
  {
    if a <= b then b - a else b - a + c
  }

  lemma MulOrder(a: int, b: int, c: nat)
    requires a <= b
    ensures a * c <= b * c
  {
    assert (b - a) * c >= 0;
  }

  /** `x & mask` for the values the table computes, when `mask + 1` is the capacity. */
  lemma Wrap(c: nat, x: int)
    requires 0 < c && -(c as int) < x < c + c
    ensures x % c == if x < 0 then x + c else if x < c then x else x - c
  {
    var q := x / c;
    assert x == q * c + x % c;
    if q < -1 {
      MulOrder(q, -2, c);
    } else if q > 1 {
      MulOrder(2, q, c);
    }
    assert q == -1 || q == 0 || q == 1;
  }

  /** `(i + 1) & mask` */
  function Next(c: nat, i: nat): (r: nat)
    requires i < c
    ensures r == if i + 1 < c then i + 1 else 0
  {
    Wrap(c, i + 1);
    (i + 1) % c
  }

  /** `(b - a) & mask`: the unsigned difference, which the source calls the
      circular distance. */
  function Distance(c: nat, a: nat, b: nat): (r: nat)
    requires a < c && b < c
    ensures r == Dist(c, a, b)
  {
    Wrap(c, b - a);
    (b - a) % c
  }
}
