/** Products of sizes, kept away from the solver's nonlinear arithmetic. */
module Products {
  /** The product, by repeated addition: the solver then meets a product of two unknowns only
      where `TimesIs` brings it in. */
  function Times(a: nat, b: nat): nat {
    if a == 0 then 0 else Times(a - 1, b) + b
  }

  lemma {:induction false} TimesIs(a: nat, b: nat)
    ensures Times(a, b) == a * b
  {
    if 0 < a {
      TimesIs(a - 1, b);
      assert a * b == (a - 1) * b + b;
    }
  }

  lemma {:induction false} TimesMono(a: nat, b: nat, k: nat)
    requires a <= b
    ensures Times(a, k) <= Times(b, k)
    decreases b
  {
    if a < b {
      TimesMono(a, b - 1, k);
    }
  }

  lemma {:induction false} TimesFour(a: nat, k: nat)
    ensures Times(a, 4 * k) == 4 * Times(a, k)
  {
    if 0 < a {
      TimesFour(a - 1, k);
    }
  }

  lemma QuotientIs(q: nat, r: nat, d: nat)
    requires r < d
    ensures (q * d + r) / d == q
  {
    var p := (q * d + r) / d;
    assert (p + 1) * d == p * d + d && (q + 1) * d == q * d + d;
    if p < q {
    } else if q < p {
    }
  }

  lemma {:induction false} TimesAdd(a: nat, b: nat, k: nat)
    ensures Times(a + b, k) == Times(a, k) + Times(b, k)
  {
    if 0 < a {
      TimesAdd(a - 1, b, k);
    }
  }

  lemma {:induction false} TimesAssoc(a: nat, b: nat, k: nat)
    ensures Times(a, Times(b, k)) == Times(Times(a, b), k)
  {
    if 0 < a {
      TimesAssoc(a - 1, b, k);
      TimesAdd(Times(a - 1, b), b, k);
    }
  }

  /** Item `r` of group `q` belongs to group `q`. */
  lemma GroupOf(q: nat, r: nat, size: nat)
    requires r < size
    ensures (Times(q, size) + r) / size == q
  {
    TimesIs(q, size);
    QuotientIs(q, r, size);
  }
}
