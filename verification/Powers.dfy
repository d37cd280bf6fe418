/** Powers, and powers modulo a number. */
module Powers {
  import opened Arithmetic

  function Power(b: nat, n: nat): (r: nat)
    ensures b >= 1 ==> r >= 1
  {
    if n == 0 then 1 else b * Power(b, n - 1)
  }

  lemma Regrouped(a: nat, b: nat, c: nat)
    ensures a * (b * c) == a * b * c
  {
  }

  lemma Swapped(a: nat, b: nat)
    ensures a * b == b * a
  {
  }

  lemma {:induction false} PowerPlus(b: nat, m: nat, n: nat)
    ensures Power(b, m + n) == Power(b, m) * Power(b, n)
  {
    if m > 0 {
      PowerPlus(b, m - 1, n);
      Regrouped(b, Power(b, m - 1), Power(b, n));
    }
  }

  lemma {:induction false} PowerTimes(b: nat, m: nat, n: nat)
    ensures Power(Power(b, m), n) == Power(b, m * n)
    decreases n
  {
    if n > 0 {
      PowerTimes(b, m, n - 1);
      PowerPlus(b, m, m * (n - 1));
      MulStep(n - 1, m);
      Swapped(n, m);
      Swapped(n - 1, m);
    } else {
      Swapped(0, m);
    }
  }

  lemma {:induction false} PowerSquare(b: nat, n: nat)
    ensures Power(b * b, n) == Power(b, 2 * n)
  {
    assert Power(b, 2) == b * Power(b, 1) == b * b by {
      assert Power(b, 1) == b * Power(b, 0) == b;
    }
    PowerTimes(b, 2, n);
  }

  lemma Distribute(a: nat, b: nat, m: nat, q: nat, r: nat, k: nat, x: nat)
    requires a == q * m + r && r * b == k * m + x
    ensures a * b == (q * b + k) * m + x
  {
    Distributes(q * m, r, b);
    Through(q, m, b);
    Distributes(q * b, k, m);
  }

  lemma Remainder(n: nat, q: nat, m: nat, x: nat)
    requires x < m && n == q * m + x
    ensures n % m == x
  {
    DivideUnique(n, q, m);
  }

  /** A factor may be reduced first. */
  lemma ModFactor(a: nat, b: nat, m: nat)
    requires m > 0
    ensures a % m * b % m == a * b % m
  {
    var q, r := Divided(a, m);
    var k, x := Divided(r * b, m);
    Distribute(a, b, m, q, r, k, x);
    Remainder(a * b, q * b + k, m, x);
  }

  lemma Divided(n: nat, m: nat) returns (q: nat, r: nat)
    requires m > 0
    ensures n == q * m + r && r < m && n % m == r && n / m == q
  {
    q, r := n / m, n % m;
    Divide(n, m);
  }

  lemma Distributes(a: nat, b: nat, n: nat)
    ensures (a + b) * n == a * n + b * n
  {
  }

  lemma Through(q: nat, m: nat, b: nat)
    ensures q * m * b == q * b * m
  {
  }

  /** The base of a power may be reduced first. */
  lemma {:induction false} ModPower(b: nat, e: nat, m: nat)
    requires m > 0
    ensures Power(b % m, e) % m == Power(b, e) % m
    decreases e
  {
    if e > 0 {
      ModPower(b, e - 1, m);
      var p, q := Power(b % m, e - 1), Power(b, e - 1);
      ModFactor(p, b % m, m);
      ModFactor(q, b % m, m);
      Swapped(b % m, p);
      Swapped(q, b % m);
      ModFactor(b, q, m);
    }
  }
}
