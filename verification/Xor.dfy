/** Exclusive or of numbers, bit by bit. */
module ExclusiveOr {
  import opened Bytes
  import opened Powers

  function Xor(a: nat, b: nat): nat
    decreases a + b
  {
    if a == 0 && b == 0 then 0 else (a + b) % 2 + 2 * Xor(a / 2, b / 2)
  }

  /** The bits at the low end and the bits above them. */
  lemma XorBits(a: nat, b: nat, x: nat, y: nat)
    requires x < 2 && y < 2
    ensures Xor(2 * a + x, 2 * b + y) == 2 * Xor(a, b) + (x + y) % 2
  {
    assert (2 * a + x) / 2 == a && (2 * b + y) / 2 == b;
    assert Xor(0, 0) == 0;
  }

  lemma {:induction false} XorNothing(a: nat)
    ensures Xor(a, 0) == a
  {
    if a > 0 {
      XorNothing(a / 2);
    }
  }

  lemma {:induction false} XorCommutes(a: nat, b: nat)
    ensures Xor(a, b) == Xor(b, a)
    decreases a + b
  {
    if a > 0 || b > 0 {
      XorCommutes(a / 2, b / 2);
    }
  }

  lemma XorHalves(a: nat, b: nat)
    ensures Xor(a, b) / 2 == Xor(a / 2, b / 2) && Xor(a, b) % 2 == (a + b) % 2
  {
  }

  lemma Parity(a: nat, b: nat, c: nat, x: nat, y: nat)
    requires x % 2 == (a + b) % 2 && y % 2 == (b + c) % 2
    ensures (x + c) % 2 == (a + y) % 2
  {
  }

  lemma SameBits(x: nat, y: nat)
    requires x / 2 == y / 2 && x % 2 == y % 2
    ensures x == y
  {
  }

  lemma AssociatesAbove(a: nat, b: nat, c: nat)
    requires Xor(Xor(a / 2, b / 2), c / 2) == Xor(a / 2, Xor(b / 2, c / 2))
    ensures Xor(Xor(a, b), c) == Xor(a, Xor(b, c))
  {
    hide Xor;
    XorHalves(a, b);
    XorHalves(b, c);
    XorHalves(Xor(a, b), c);
    XorHalves(a, Xor(b, c));
    Parity(a, b, c, Xor(a, b), Xor(b, c));
    SameBits(Xor(Xor(a, b), c), Xor(a, Xor(b, c)));
  }

  lemma {:induction false} XorAssociates(a: nat, b: nat, c: nat)
    ensures Xor(Xor(a, b), c) == Xor(a, Xor(b, c))
    decreases a + b + c
  {
    if a > 0 || b > 0 || c > 0 {
      XorAssociates(a / 2, b / 2, c / 2);
      AssociatesAbove(a, b, c);
    }
  }

  lemma {:induction false} XorSame(a: nat)
    ensures Xor(a, a) == 0
  {
    if a > 0 {
      XorSame(a / 2);
    }
  }

  /** Adding the same bits twice changes nothing. */
  lemma XorTwice(a: nat, b: nat)
    ensures Xor(Xor(a, b), b) == a
  {
    XorAssociates(a, b, b);
    XorSame(b);
    XorNothing(a);
  }

  function Times(a: nat, p: nat): nat {
    a * p
  }

  ghost predicate PartsMeet(a: nat, b: nat, x: nat, y: nat, p: nat) {
    Xor(x, y) < p && Xor(Times(a, p) + x, Times(b, p) + y) == Times(Xor(a, b), p) + Xor(x, y)
  }

  lemma OneMoreBit(high: nat, high': nat, x: nat, y: nat, sum: nat)
    requires Xor(high + x / 2, high' + y / 2) == sum + Xor(x / 2, y / 2)
    ensures Xor(2 * high + x, 2 * high' + y) == 2 * sum + Xor(x, y)
  {
    hide Xor;
    XorBits(high + x / 2, high' + y / 2, x % 2, y % 2);
    XorBits(x / 2, y / 2, x % 2, y % 2);
  }

  lemma TimesTwo(a: nat, p: nat)
    ensures Times(a, 2 * p) == 2 * Times(a, p)
  {
  }

  lemma PartsBelow(a: nat, b: nat, x: nat, y: nat, p: nat)
    requires PartsMeet(a, b, x / 2, y / 2, p)
    ensures PartsMeet(a, b, x, y, 2 * p)
  {
    hide Xor, Times;
    OneMoreBit(Times(a, p), Times(b, p), x, y, Times(Xor(a, b), p));
    XorHalves(x, y);
    TimesTwo(a, p);
    TimesTwo(b, p);
    TimesTwo(Xor(a, b), p);
  }

  /** The low `k` bits and the bits above them do not meet. */
  lemma {:induction false} XorParts(a: nat, b: nat, x: nat, y: nat, k: nat)
    requires x < Power(2, k) && y < Power(2, k)
    ensures PartsMeet(a, b, x, y, Power(2, k))
    decreases k
  {
    if k == 0 {
      assert Power(2, 0) == 1 && Xor(0, 0) == 0;
    } else {
      assert Power(2, k) == 2 * Power(2, k - 1);
      XorParts(a, b, x / 2, y / 2, k - 1);
      PartsBelow(a, b, x, y, Power(2, k - 1));
      hide PartsMeet;
    }
  }

  lemma TwoToTheEighth()
    ensures Power(2, 8) == 256
  {
    assert Power(2, 1) == 2 && Power(2, 2) == 4 && Power(2, 3) == 8 && Power(2, 4) == 16;
    assert Power(2, 5) == 32 && Power(2, 6) == 64 && Power(2, 7) == 128;
  }

  /** Exclusive or on bytes. */
  function XorByte(a: Byte, b: Byte): (r: Byte)
  {
    XorBytesFit(a, b);
    Xor(a, b)
  }

  lemma XorBytesFit(a: Byte, b: Byte)
    ensures Xor(a, b) < 256
  {
    TwoToTheEighth();
    XorParts(0, 0, a, b, 8);
  }

  lemma XorLast(high: nat, low: Byte, high': nat, low': Byte)
    ensures Xor(high * 256 + low, high' * 256 + low') == Xor(high, high') * 256 + XorByte(low, low')
  {
    TwoToTheEighth();
    XorParts(high, high', low, low', 8);
  }
}
