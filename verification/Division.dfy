/**
  Quotients and remainders by a variable divisor.
 */
module Division {
  lemma DivMul(q: nat, g: nat)
    requires g > 0
    ensures q * g / g == q && q * g % g == 0
  {
    var x := q * g;
    Euclid(x, g);
    SameQuotient(q, 0, x / g, x % g, g);
  }

  lemma Euclid(x: nat, g: nat)
    requires g > 0
    ensures x == x / g * g + x % g && 0 <= x % g < g && 0 <= x / g
  {
  }

  // A number has one quotient and one remainder.
  lemma SameQuotient(q: nat, r: nat, q': nat, r': nat, g: nat)
    requires q * g + r == q' * g + r' && r < g && r' < g
    ensures q == q' && r == r'
  {
    if q < q' { MulGrows(q, q', g); }
    if q' < q { MulGrows(q', q, g); }
  }

  lemma MulGrows(a: nat, b: nat, g: nat)
    requires a < b
    ensures a * g + g <= b * g
  {
    var d := b - a - 1;
    assert b * g == a * g + g + d * g;
    MulNat(d, g);
  }

  lemma MulNat(a: nat, b: nat)
    ensures 0 <= a * b
  {
  }
}
