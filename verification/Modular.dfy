/** Powers and residues: the algebra under the key agreement. */
module Modular {
  function Pow(b: int, e: nat): int {
    if e == 0 then 1 else b * Pow(b, e - 1)
  }

  /** `BigUint::modpow`. */
  function ModPow(b: int, e: nat, n: int): (r: nat)
    requires n > 0
    ensures r < n
  {
    Pow(b, e) % n
  }

  lemma SmallMultiple(m: int, n: int)
    requires -n < m * n < n
    ensures m == 0
  {
    assert m >= 1 ==> m * n >= n;
    assert m <= -1 ==> m * n <= -n;
  }

  /** Adding a multiple of the modulus does not change the residue. */
  lemma ModShift(x: int, k: int, n: int)
    requires n > 0
    ensures (x + k * n) % n == x % n
  {
    var y := x + k * n;
    var m := x / n + k - y / n;
    assert m * n == x / n * n + k * n - y / n * n;
    assert x / n * n == x - x % n && y / n * n == y - y % n;
    assert m * n == y % n - x % n;
    SmallMultiple(m, n);
  }

  lemma SmallMod(x: int, n: int)
    requires 0 <= x < n
    ensures x % n == x
  {
  }

  lemma ModMul(a: int, b: int, n: int)
    requires n > 0
    ensures (a % n) * b % n == a * b % n
  {
    assert a == a % n + a / n * n;
    assert a * b == (a % n) * b + (a / n * b) * n;
    ModShift((a % n) * b, a / n * b, n);
  }

  lemma ModMulBoth(a: int, b: int, n: int)
    requires n > 0
    ensures (a % n) * (b % n) % n == a * b % n
  {
    ModMul(a, b % n, n);
    ModMul(b, a, n);
    assert a * (b % n) == (b % n) * a && b * a == a * b;
  }

  lemma {:induction false} PowAdd(b: int, x: nat, y: nat)
    ensures Pow(b, x + y) == Pow(b, x) * Pow(b, y)
  {
    if x > 0 {
      PowAdd(b, x - 1, y);
      assert b * (Pow(b, x - 1) * Pow(b, y)) == (b * Pow(b, x - 1)) * Pow(b, y);
    }
  }

  lemma {:induction false} PowPow(b: int, x: nat, y: nat)
    ensures Pow(Pow(b, x), y) == Pow(b, x * y)
  {
    if y == 0 {
      assert x * y == 0;
    } else {
      PowPow(b, x, y - 1);
      assert x * y == x + x * (y - 1);
      PowAdd(b, x, x * (y - 1));
    }
  }

  lemma Regroup(a: int, b: int, p: int, q: int)
    ensures (a * b) * (p * q) == (a * p) * (b * q)
  {
    assert (a * b) * (p * q) == a * (b * (p * q)) == a * (p * (b * q));
  }

  lemma {:induction false} PowProduct(a: int, b: int, e: nat)
    ensures Pow(a * b, e) == Pow(a, e) * Pow(b, e)
  {
    if e > 0 {
      PowProduct(a, b, e - 1);
      Regroup(a, b, Pow(a, e - 1), Pow(b, e - 1));
    }
  }

  /** The base of a modular power may be reduced first. */
  lemma {:induction false} PowMod(b: int, e: nat, n: int)
    requires n > 0
    ensures Pow(b % n, e) % n == Pow(b, e) % n
  {
    if e > 0 {
      PowMod(b, e - 1, n);
      var p := Pow(b % n, e - 1);
      ModMulBoth(b % n, p, n);
      ModMulBoth(b % n, Pow(b, e - 1), n);
      ModMul(b, Pow(b, e - 1), n);
    }
  }

  lemma {:induction false} PowOne(e: nat)
    ensures Pow(1, e) == 1
  {
    if e > 0 {
      PowOne(e - 1);
    }
  }

  lemma UnitPowerInverse(g: int, inverse: int, e: nat, n: int)
    requires n > 1 && g * inverse % n == 1
    ensures Pow(g, e) * Pow(inverse, e) % n == 1
  {
    PowProduct(g, inverse, e);
    PowMod(g * inverse, e, n);
    PowOne(e);
    SmallMod(1, n);
  }

  lemma ZeroAbsorbs(a: int, b: int, n: int)
    requires n > 0 && a % n == 0
    ensures a * b % n == 0
  {
    ModMul(a, b, n);
  }

  /** No power of a unit vanishes modulo `n`. */
  lemma UnitPowerNonzero(g: int, inverse: int, e: nat, n: int)
    requires n > 1 && g * inverse % n == 1
    ensures ModPow(g, e, n) != 0
  {
    UnitPowerInverse(g, inverse, e, n);
    if ModPow(g, e, n) == 0 {
      ZeroAbsorbs(Pow(g, e), Pow(inverse, e), n);
    }
  }

  /** The server's side: (A * (v^u mod n))^b mod n, for A = g^a and v = g^x. */
  lemma ServerPower(g: int, n: int, a: nat, b: nat, u: nat, x: nat)
    requires n > 0
    ensures ModPow(ModPow(g, a, n) * ModPow(ModPow(g, x, n), u, n), b, n) == ModPow(g, (a + u * x) * b, n)
  {
    var left, right := ModPow(g, a, n), ModPow(ModPow(g, x, n), u, n);
    PowMod(Pow(g, x), u, n);
    PowPow(g, x, u);
    assert x * u == u * x;
    assert right == Pow(g, u * x) % n;
    ModMulBoth(Pow(g, a), Pow(g, u * x), n);
    PowAdd(g, a, u * x);
    assert left * right % n == Pow(g, a + u * x) % n;
    PowMod(left * right, b, n);
    PowMod(Pow(g, a + u * x), b, n);
    PowPow(g, a + u * x, b);
  }

  /** How often the modulus is taken out of `x`, negated. */
  lemma Reduction(x: int, n: int) returns (k: int)
    requires n > 0
    ensures x % n == x + k * n
  {
    k := -(x / n);
    assert k * n == -(x / n * n);
  }

  /** Removing from the server's public value what was added to g^b leaves g^b. */
  lemma Unblind(power: int, added: int, n: int)
    requires 0 <= power < n
    ensures ((power + added) % n - added) % n == power
  {
    var k := Reduction(power + added, n);
    var unblinded := (power + added) % n - added;
    assert unblinded == power + k * n;
    ModShift(power, k, n);
    SmallMod(power, n);
  }

  /** The client's side: ((B - kv) mod n)^(a + u*x) mod n. */
  lemma ClientPower(g: int, n: int, a: nat, b: nat, u: nat, x: nat, kv: int)
    requires n > 0
    ensures ModPow(((ModPow(g, b, n) + kv) % n - kv) % n, a + u * x, n) == ModPow(g, (a + u * x) * b, n)
  {
    Unblind(ModPow(g, b, n), kv, n);
    PowMod(Pow(g, b), a + u * x, n);
    PowPow(g, b, a + u * x);
    assert b * (a + u * x) == (a + u * x) * b;
  }
}
