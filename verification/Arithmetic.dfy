/** Facts about products that the solver does not find by itself. */
module Arithmetic {

  lemma Grows(x: nat, y: nat, a: nat)
    requires x <= y
    ensures x * a <= y * a
  {
  }

  lemma DivMod(a: nat, q: nat, r: nat)
    requires r < a
    ensures (q * a + r) / a == q && (q * a + r) % a == r
  {
    var x := q * a + r;
    assert x == (x / a) * a + x % a;
    if x / a < q {
      Grows(x / a + 1, q, a);
    } else if x / a > q {
      Grows(q + 1, x / a, a);
    }
  }
}
