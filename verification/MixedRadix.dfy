/** Products, quotients and remainders of natural numbers, as named functions that proofs can treat
    as black boxes together with the few laws they need. */
module MixedRadix {

  function Mul(a: nat, b: nat): nat {
    a * b
  }

  function Quot(i: nat, b: nat): nat
    requires b > 0
  {
    i / b
  }

  function Rem(i: nat, b: nat): nat
    requires b > 0
  {
    i % b
  }

  lemma MulMonotone(a: nat, b: nat, c: nat)
    requires a <= b
    ensures Mul(a, c) <= Mul(b, c)
  {
    assert b * c - a * c == (b - a) * c;
  }

  lemma MulDistributes(a: nat, b: nat, c: nat)
    ensures Mul(a + b, c) == Mul(a, c) + Mul(b, c)
    ensures Mul(1, c) == c && Mul(0, c) == 0
  {
  }

  lemma MulAssociative(a: nat, b: nat, c: nat)
    ensures Mul(a, Mul(b, c)) == Mul(Mul(a, b), c)
  {
  }

  lemma MulPositive(a: nat, b: nat)
    ensures Mul(a, b) > 0 <==> a > 0 && b > 0
  {
    if a > 0 && b > 0 {
      MulMonotone(1, a, b);
      MulDistributes(0, 0, b);
    }
  }

  lemma Split(i: nat, b: nat)
    requires b > 0
    ensures i == Mul(Quot(i, b), b) + Rem(i, b) && Rem(i, b) < b
  {
  }

  lemma QuotOf(v: nat, b: nat, i: nat)
    requires i < b
    ensures Quot(Mul(v, b) + i, b) == v && Rem(Mul(v, b) + i, b) == i
  {
    var n := Mul(v, b) + i;
    Split(n, b);
    var q, r := Quot(n, b), Rem(n, b);
    hide Mul, Quot, Rem;
    if q > v {
      MulMonotone(v + 1, q, b);
      MulDistributes(v, 1, b);
      assert false;
    }
    if q < v {
      MulMonotone(q + 1, v, b);
      MulDistributes(q, 1, b);
      assert false;
    }
  }

  lemma QuotBelow(i: nat, a: nat, b: nat)
    requires i < Mul(a, b)
    ensures b > 0 && Quot(i, b) < a && Rem(i, b) < b
  {
    MulPositive(a, b);
    Split(i, b);
    hide Mul, Quot, Rem;
    if Quot(i, b) >= a {
      MulMonotone(a, Quot(i, b), b);
      assert false;
    }
  }

  lemma QuotMonotone(i: nat, j: nat, b: nat)
    requires i <= j && b > 0
    ensures Quot(i, b) <= Quot(j, b)
    ensures Quot(i, b) == Quot(j, b) ==> Rem(j, b) - Rem(i, b) == j - i
  {
    Split(i, b);
    Split(j, b);
    hide Mul, Quot, Rem;
    if Quot(j, b) < Quot(i, b) {
      MulMonotone(Quot(j, b) + 1, Quot(i, b), b);
      MulDistributes(Quot(j, b), 1, b);
      assert false;
    }
  }

  lemma NextQuot(i: nat, b: nat)
    requires b > 0
    ensures Quot(0, b) == 0
    ensures Quot(i + 1, b) == Quot(i, b) || Quot(i + 1, b) == Quot(i, b) + 1
  {
    Split(i, b);
    if Rem(i, b) + 1 < b {
      QuotOf(Quot(i, b), b, Rem(i, b) + 1);
    } else {
      MulDistributes(Quot(i, b), 1, b);
      QuotOf(Quot(i, b) + 1, b, 0);
    }
    MulDistributes(0, 0, b);
    QuotOf(0, b, 0);
    hide Mul, Quot, Rem;
  }

  lemma LastQuot(a: nat, b: nat)
    requires a > 0 && b > 0
    ensures Mul(a, b) > 0 && Quot(Mul(a, b) - 1, b) == a - 1
  {
    MulDistributes(a - 1, 1, b);
    QuotOf(a - 1, b, b - 1);
    hide Mul, Quot, Rem;
  }

  lemma NestedQuot(i: nat, b: nat, c: nat)
    requires b > 0 && c > 0
    ensures Mul(b, c) > 0
    ensures Quot(Quot(i, c), b) == Quot(i, Mul(b, c))
    ensures Rem(Quot(i, c), b) == Quot(Rem(i, Mul(b, c)), c)
  {
    hide Mul, Quot, Rem;
    MulPositive(b, c);
    Split(i, Mul(b, c));
    var q, r := Quot(i, Mul(b, c)), Rem(i, Mul(b, c));
    QuotBelow(r, b, c);
    Split(r, c);
    MulAssociative(q, b, c);
    MulDistributes(Mul(q, b), Quot(r, c), c);
    QuotOf(Mul(q, b) + Quot(r, c), c, Rem(r, c));
    QuotOf(q, b, Quot(r, c));
  }
}

