/** The few facts about products, quotients and powers of two that sizes and byte offsets need. */
module Products {

  lemma Division(a: nat, b: nat)
    requires b > 0
    ensures a == b * (a / b) + a % b
  {
  }

  lemma Distribute(b: int, x: int, y: int)
    ensures b * (x - y) == b * x - b * y
  {
  }

  lemma AtLeastOnce(b: nat, x: nat)
    requires x >= 1
    ensures b * x >= b
  {
    Distribute(b, x, 1);
    assert b * (x - 1) >= 0;
  }

  lemma Quotient(a: nat, b: nat)
    requires b > 0
    ensures (b * a) / b == a
  {
    var q := b * a / b;
    Division(b * a, b);
    Distribute(b, a, q);
    Distribute(b, q, a);
    if a < q {
      AtLeastOnce(b, q - a);
      assert false;
    } else if q < a {
      AtLeastOnce(b, a - q);
      assert false;
    }
  }

  function Pow2(n: nat): (p: nat)
    ensures p >= 1
  {
    if n == 0 then 1 else 2 * Pow2(n - 1)
  }

  lemma {:induction false} Pow2Monotone(i: nat, j: nat)
    requires i <= j
    ensures Pow2(i) <= Pow2(j)
  {
    if i < j {
      Pow2Monotone(i, j - 1);
    }
  }
}
