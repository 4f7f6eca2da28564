/** The hash of the schedulers: a flow number times a prime, reduced to the size of a table. */
module Hashing {
  import opened Arithmetic

  function Prime(index: nat): (p: nat)
    ensures p >= 1
  {
    if index == 0 then 7643 else if index == 1 then 7723
    else if index == 2 then 7829 else if index == 3 then 7919 else 1
  }

  function HashFlow(index: nat, flow: nat): nat { Prime(index) * flow }

  /** Where a flow goes in a table of `m` entries. */
  function Place(index: nat, flow: nat, m: nat): (k: nat)
    requires m >= 1
    ensures k < m
  {
    HashFlow(index, flow) % m
  }

  // ----- residues -------------------------------------------------------------------

  lemma Distribute(a: nat, b: nat, c: nat, m: nat)
    ensures (a + b + c) * m == a * m + b * m + c * m
  {}

  lemma Residue(x: nat, y: nat, m: nat)
    requires m >= 1
    ensures (x + y) % m == (x % m + y % m) % m
  {
    var q, q', u, v := x / m, y / m, x % m, y % m;
    var w, r := (u + v) / m, (u + v) % m;
    assert x + y == (q * m + q' * m + w * m) + r;
    Distribute(q, q', w, m);
    ModUnique(x + y, m, q + q' + w, r);
  }

  /** Two numbers leave the same remainder exactly when `m` divides their difference. */
  lemma SameResidue(x: nat, y: nat, m: nat)
    requires m >= 1 && x <= y
    ensures x % m == y % m <==> (y - x) % m == 0
  {
    Residue(x, y - x, m);
    var r, d := x % m, (y - x) % m;
    if d == 0 {
      ModUnique(r, m, 0, r);
    } else if r + d < m {
      ModUnique(r + d, m, 0, r + d);
    } else {
      ModUnique(r + d, m, 1, r + d - m);
    }
  }

  // ----- the four primes ------------------------------------------------------------

  predicate Divides(d: nat, n: nat) { d >= 1 && n % d == 0 }

  ghost predicate IsPrime(p: nat) {
    p >= 2 && forall d :: 2 <= d < p ==> !Divides(d, p)
  }

  /** None of the numbers 2 to `k` divides `n`. */
  predicate NoneDivides(n: nat, k: nat) {
    k < 2 || (!Divides(k, n) && NoneDivides(n, k - 1))
  }

  lemma {:induction false} NoneDividesMember(n: nat, k: nat, d: nat)
    requires NoneDivides(n, k) && 2 <= d <= k
    ensures !Divides(d, n)
  {
    if d == k {
    } else {
      NoneDividesMember(n, k - 1, d);
    }
  }

  lemma Cofactor(p: nat, d: nat)
    requires 89 <= d < p < 89 * 89 && p % d == 0
    ensures 2 <= p / d <= 88 && Divides(p / d, p)
  {
    var e := p / d;
    assert p == e * d;
    if e >= 89 { MulMonotone(89, e, d); }
    ModUnique(p, e, d, 0);
  }

  /** A number below 89 * 89 that no number up to 88 divides is a prime. */
  lemma SmallPrime(p: nat)
    requires 89 <= p < 89 * 89 && NoneDivides(p, 88)
    ensures IsPrime(p)
  {
    hide NoneDivides;
    forall d | 2 <= d < p ensures !Divides(d, p) {
      if d <= 88 {
        NoneDividesMember(p, 88, d);
      } else if p % d == 0 {
        Cofactor(p, d);
        NoneDividesMember(p, 88, p / d);
      }
    }
  }

  lemma Prime7643()
    ensures IsPrime(7643)
  {
    hide IsPrime;
    assert NoneDivides(7643, 11) && NoneDivides(7643, 22) && NoneDivides(7643, 33) && NoneDivides(7643, 44);
    assert NoneDivides(7643, 55) && NoneDivides(7643, 66) && NoneDivides(7643, 77) && NoneDivides(7643, 88);
    SmallPrime(7643);
  }

  lemma Prime7723()
    ensures IsPrime(7723)
  {
    hide IsPrime;
    assert NoneDivides(7723, 11) && NoneDivides(7723, 22) && NoneDivides(7723, 33) && NoneDivides(7723, 44);
    assert NoneDivides(7723, 55) && NoneDivides(7723, 66) && NoneDivides(7723, 77) && NoneDivides(7723, 88);
    SmallPrime(7723);
  }

  lemma Prime7829()
    ensures IsPrime(7829)
  {
    hide IsPrime;
    assert NoneDivides(7829, 11) && NoneDivides(7829, 22) && NoneDivides(7829, 33) && NoneDivides(7829, 44);
    assert NoneDivides(7829, 55) && NoneDivides(7829, 66) && NoneDivides(7829, 77) && NoneDivides(7829, 88);
    SmallPrime(7829);
  }

  lemma Prime7919()
    ensures IsPrime(7919)
  {
    hide IsPrime;
    assert NoneDivides(7919, 11) && NoneDivides(7919, 22) && NoneDivides(7919, 33) && NoneDivides(7919, 44);
    assert NoneDivides(7919, 55) && NoneDivides(7919, 66) && NoneDivides(7919, 77) && NoneDivides(7919, 88);
    SmallPrime(7919);
  }

  lemma Primes(index: nat)
    requires index < 4
    ensures IsPrime(Prime(index))
  {
    hide IsPrime;
    Prime7643();
    Prime7723();
    Prime7829();
    Prime7919();
  }

  /** A prime that divides a product divides one of its factors (Euclid). */
  lemma {:induction false} Euclid(p: nat, m: nat, k: nat, t: nat)
    requires IsPrime(p) && 0 < k < p && m * k == p * t
    ensures Divides(p, m)
    decreases k
  {
    if k == 1 {
      ModUnique(m, p, t, 0);
    } else {
      var q, r := p / k, p % k;
      assert !Divides(k, p);
      assert p == q * k + r;
      assert m * r == p * (m - q * t) by {
        assert m * r == m * p - m * (q * k);
        assert m * (q * k) == q * (m * k) == q * (p * t);
      }
      assert m - q * t >= 0;
      Euclid(p, m, r, m - q * t);
    }
  }

  // ----- what the hash does for a caller --------------------------------------------

  /** The hash is additive, so it is fixed by where it puts flow 1. */
  lemma PlaceAdds(index: nat, f: nat, g: nat, m: nat)
    requires m >= 1
    ensures Place(index, 0, m) == 0 && Place(index, 1, m) == Prime(index) % m
    ensures Place(index, f + g, m) == (Place(index, f, m) + Place(index, g, m)) % m
  {
    hide Prime;
    ModUnique(0, m, 0, 0);
    assert HashFlow(index, f + g) == HashFlow(index, f) + HashFlow(index, g);
    Residue(HashFlow(index, f), HashFlow(index, g), m);
  }

  /** Two flows share an entry exactly when the table's size divides the prime times their difference. */
  lemma SharedExactly(index: nat, f: nat, g: nat, m: nat)
    requires m >= 1 && f <= g
    ensures Place(index, f, m) == Place(index, g, m) <==> HashFlow(index, g - f) % m == 0
  {
    var p := Prime(index);
    assert p * g - p * f == p * (g - f);
    MulMonotone(f, g, p);
    SameResidue(p * f, p * g, m);
  }

  lemma QuotientBelow(p: nat, d: nat, m: nat, k: nat)
    requires p >= 1 && 1 <= d < m && m * k == p * d
    ensures 0 < k < p
  {
    assert p * d < p * m;
    if k >= p { MulMonotone(p, k, m); }
  }

  /** Two flows below the table's size share an entry only if the prime divides that size. */
  lemma CollisionNeedsMultiple(index: nat, f: nat, g: nat, m: nat)
    requires index < 4 && m >= 1 && f < g < m && Place(index, f, m) == Place(index, g, m)
    ensures Divides(Prime(index), m)
  {
    Primes(index);
    SharedExactly(index, f, g, m);
    hide Prime, Place, IsPrime;
    var p, d := Prime(index), g - f;
    var k := p * d / m;
    assert m * k == p * d;
    QuotientBelow(p, d, m, k);
    Euclid(p, m, k, d);
  }

  /** The first `m` flows go to `m` different entries if and only if the prime does not divide `m`. */
  lemma SpreadsExactly(index: nat, m: nat)
    requires index < 4 && m >= 1
    ensures (forall f, g :: 0 <= f < g < m ==> Place(index, f, m) != Place(index, g, m))
            <==> !Divides(Prime(index), m)
  {
    if Divides(Prime(index), m) {
      hide Prime;
      var p, t := Prime(index), m / Prime(index);
      Primes(index);
      assert m == p * t;
      assert 0 < t < m;
      SharedExactly(index, 0, t, m);
      ModUnique(m, m, 1, 0);
      assert Place(index, 0, m) == Place(index, t, m);
    } else {
      forall f, g | 0 <= f < g < m ensures Place(index, f, m) != Place(index, g, m) {
        if Place(index, f, m) == Place(index, g, m) {
          CollisionNeedsMultiple(index, f, g, m);
        }
      }
    }
  }
}
