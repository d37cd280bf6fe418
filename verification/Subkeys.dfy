/** The subkeys of CMAC (section 2.3 of RFC 4493), as pond-sec/app/static/novnc/core/crypto/aes.js
    makes them: one pass of byte shifts and a lookup table. */
module Subkeys {
  import opened Arithmetic
  import opened Bytes
  import opened ExclusiveOr
  import opened Powers

  /** Sixteen bytes. */
  type Block = s: seq<Byte> | |s| == 16 witness seq(16, _ => 0)

  /** Twice a number of 128 bits in the field of RFC 4493: a bit that is shifted out comes
      back as 0x87. */
  function Dbl(l: nat): nat {
    if 2 * l < Power256(16) then 2 * l else Xor(2 * l - Power256(16), 0x87)
  }

  /** The table of multiples of the polynomial, modulo 256. */
  function Lut(v: nat): Byte {
    if v == 0 then 0 else if v == 1 then 0x87 else if v == 2 then 0x0e else 0x89
  }

  // ----- shifting bytes ---------------------------------------------------------------------

  /** The number of these bytes times `m`, with `fill` coming in at the low end. */
  function ShiftLeft(l: seq<Byte>, m: nat, fill: nat): (r: seq<Byte>)
    requires (m == 2 || m == 4) && fill < m
    ensures |r| == |l|
  {
    if l == [] then []
    else
      var last: nat := l[|l| - 1];
      ShiftLeft(l[..|l| - 1], m, last * m / 256) + [(last * m % 256 + fill) as int]
  }

  lemma {:induction false} ShiftAt(l: seq<Byte>, m: nat, fill: nat, i: nat)
    requires (m == 2 || m == 4) && fill < m && i < |l|
    ensures ShiftLeft(l, m, fill)[i]
         == if i == |l| - 1 then l[i] as int * m % 256 + fill else l[i] as int * m % 256 + l[i + 1] as int * m / 256
    decreases |l|
  {
    if i < |l| - 1 {
      ShiftAt(l[..|l| - 1], m, l[|l| - 1] as int * m / 256, i);
    }
  }

  lemma ModUnit(x: nat, y: nat, p: nat)
    requires p > 0 && y < 256
    ensures x % p * 256 + y == (x * 256 + y) % (256 * p)
  {
    var q, r := Divided(x, p);
    MulMono(r + 1, p, 256);
    Through(q, p, 256);
    assert q * (256 * p) == q * 256 * p;
    DivideUnique(x * 256 + y, q, 256 * p);
  }

  lemma CarryOver(front: nat, last: Byte, m: nat, fill: nat)
    requires m == 2 || m == 4
    ensures var byte: nat := last;
            (front * m + byte * m / 256) * 256 + (byte * m % 256 + fill) == (front * 256 + byte) * m + fill
  {
  }

  lemma ModStep(front: nat, last: Byte, m: nat, fill: nat, p: nat)
    requires (m == 2 || m == 4) && fill < m && p > 0
    ensures var byte: nat := last;
            (front * m + byte * m / 256) % p * 256 + (byte * m % 256 + fill)
            == ((front * 256 + byte) * m + fill) % (256 * p)
  {
    var byte: nat := last;
    ModUnit(front * m + byte * m / 256, byte * m % 256 + fill, p);
    CarryOver(front, last, m, fill);
  }

  lemma LastShifted(l: seq<Byte>, m: nat, fill: nat)
    requires (m == 2 || m == 4) && fill < m && l != []
    ensures var front, last: nat := l[..|l| - 1], l[|l| - 1];
            && BigEndian(ShiftLeft(l, m, fill))
               == BigEndian(ShiftLeft(front, m, last * m / 256)) * 256 + (last * m % 256 + fill)
            && BigEndian(l) == BigEndian(front) * 256 + last && Power256(|l|) == 256 * Power256(|front|)
  {
    var front, last: nat := l[..|l| - 1], l[|l| - 1];
    BigEndianPush(ShiftLeft(front, m, last * m / 256), last * m % 256 + fill);
  }

  lemma ShiftStep(l: seq<Byte>, m: nat, fill: nat, carry: nat)
    requires (m == 2 || m == 4) && fill < m && l != [] && carry == l[|l| - 1] as int * m / 256
    requires var front := l[..|l| - 1];
             BigEndian(ShiftLeft(front, m, carry)) == (BigEndian(front) * m + carry) % Power256(|front|)
    ensures BigEndian(ShiftLeft(l, m, fill)) == (BigEndian(l) * m + fill) % Power256(|l|)
  {
    hide BigEndian, ShiftLeft, Power256;
    LastShifted(l, m, fill);
    ModStep(BigEndian(l[..|l| - 1]), l[|l| - 1], m, fill, Power256(|l| - 1));
  }

  lemma {:induction false} ShiftValue(l: seq<Byte>, m: nat, fill: nat)
    requires (m == 2 || m == 4) && fill < m
    ensures BigEndian(ShiftLeft(l, m, fill)) == (BigEndian(l) * m + fill) % Power256(|l|)
    decreases |l|
  {
    if l != [] {
      ShiftValue(l[..|l| - 1], m, l[|l| - 1] as int * m / 256);
      ShiftStep(l, m, fill, l[|l| - 1] as int * m / 256);
    } else {
      assert Power256(0) == 1;
    }
  }

  /** Exclusive or with the last byte, and with the last two. */
  lemma XorLastByte(s: seq<Byte>, c: Byte)
    requires |s| >= 1
    ensures BigEndian(s[..|s| - 1] + [XorByte(s[|s| - 1], c)]) == Xor(BigEndian(s), c)
  {
    var n := |s| - 1;
    BigEndianPush(s[..n], XorByte(s[n], c));
    XorLast(BigEndian(s[..n]), s[n], 0, c);
    XorNothing(BigEndian(s[..n]));
    hide Xor, XorByte;
  }

  lemma XorLastBytes(s: seq<Byte>, high: Byte, low: Byte)
    requires |s| >= 2
    ensures BigEndian(s[..|s| - 2] + [XorByte(s[|s| - 2], high)] + [XorByte(s[|s| - 1], low)])
         == Xor(BigEndian(s), high * 256 + low)
  {
    var n := |s| - 1;
    var front := s[..n];
    XorLastByte(front, high);
    assert front[..n - 1] == s[..n - 1];
    BigEndianPush(s[..n - 1] + [XorByte(s[n - 1], high)], XorByte(s[n], low));
    XorLast(BigEndian(front), s[n], high, low);
    hide Xor, XorByte;
  }

  // ----- doubling twice at once ----------------------------------------------------------------

  lemma {:induction false} FirstByte(l: seq<Byte>)
    requires l != []
    ensures l[0] * Power256(|l| - 1) <= BigEndian(l) < l[0] * Power256(|l| - 1) + Power256(|l| - 1)
    decreases |l|
  {
    if |l| == 1 {
      assert l[..0] == [];
      assert Power256(0) == 1;
    } else {
      var n := |l| - 1;
      FirstByte(l[..n]);
      var p := Power256(n - 1);
      assert Power256(n) == 256 * p;
      assert l[0] * (256 * p) == 256 * (l[0] * p);
    }
  }

  lemma Quarters(n: nat, b: nat, v: nat, p: nat, quarter: nat)
    requires v * 64 <= b < v * 64 + 64 && b * p <= n < b * p + p && quarter == 64 * p
    ensures v * quarter <= n < v * quarter + quarter
  {
    Regrouped(v, 64, p);
    MulMono(v * 64, b, p);
    MulMono(b + 1, v * 64 + 64, p);
    MulStep(b, p);
    Distributes(v * 64, 64, p);
  }

  /** The top two bits of a block are the top two bits of its first byte; `quarter` is 2^126. */
  lemma TopBits(l: Block) returns (v: nat, quarter: nat)
    ensures v == l[0] / 64 && v < 4 && Power256(16) == 4 * quarter && quarter == 64 * Power256(15)
    ensures v * quarter <= BigEndian(l) < v * quarter + quarter
  {
    FirstByte(l);
    assert Power256(16) == 256 * Power256(15);
    hide Power256, BigEndian;
    v, quarter := l[0] / 64, 64 * Power256(15);
    Quarters(BigEndian(l), l[0], v, Power256(15), quarter);
  }

  /** What is left of the number after its top bits are shifted out. */
  lemma ShiftedOut(n: nat, v: nat, quarter: nat)
    requires v < 4 && v * quarter <= n < v * quarter + quarter
    ensures 2 * n % (4 * quarter) == 2 * n - v / 2 * (4 * quarter)
    ensures 4 * n % (4 * quarter) == 4 * n - v * (4 * quarter)
  {
    var q := 4 * quarter;
    Fourfold(v, quarter);
    DivideUnique(4 * n, v, q);
    DivideUnique(2 * n, v / 2, q);
  }

  lemma Fourfold(v: nat, quarter: nat)
    requires v < 4
    ensures v * (4 * quarter) == 4 * (v * quarter)
    ensures v / 2 * (4 * quarter) == if v % 2 == 0 then 2 * (v * quarter) else 2 * (v * quarter) - 2 * quarter
    ensures v * quarter >= v % 2 * quarter
  {
  }

  lemma {:induction false} PowersAgree(k: nat)
    ensures Power(2, 8 * k) == Power256(k)
  {
    if k > 0 {
      PowersAgree(k - 1);
      PowerPlus(2, 8, 8 * (k - 1));
      TwoToTheEighth();
    }
  }

  lemma XorAbovePower(x: nat, c: nat, k: nat)
    requires x < Power(2, k) && c < Power(2, k)
    ensures Xor(Power(2, k) + x, c) == Power(2, k) + Xor(x, c)
  {
    hide Power, Xor;
    XorParts(1, 0, x, c, k);
    XorNothing(1);
  }

  /** A bit above 128 bits is carried past an exclusive or with low bits. */
  lemma XorAbove(x: nat, c: nat)
    requires x < Power256(16) && c < Power256(16)
    ensures Xor(Power256(16) + x, c) == Power256(16) + Xor(x, c)
  {
    hide Xor, Power, Power256;
    PowersAgree(16);
    XorAbovePower(x, c, 128);
  }

  lemma XorParted(q: nat, r: Byte, c: Byte) returns (s: Byte)
    ensures Xor(q * 256 + r, c) == q * 256 + s
  {
    hide Xor;
    XorLast(q, r, 0, c);
    XorNothing(q);
    s := XorByte(r, c);
  }

  /** An exclusive or with a byte leaves multiples of 256 below and above. */
  lemma XorKeepsOrder(x: nat, c: Byte, bound: nat)
    ensures Xor(x, c) >= bound * 256 <==> x >= bound * 256
  {
    hide Xor;
    var s := XorParted(x / 256, x % 256, c);
  }

  lemma XorTables()
    ensures Xor(0, 0) == 0 && Xor(0, 0x87) == 0x87 && Xor(0x10e, 0) == 0x10e && Xor(0x10e, 0x87) == 0x189
  {
    hide Xor;
    XorNothing(0x10e);
    XorNothing(0x87);
    XorCommutes(0, 0x87);
    LowTable();
    XorBits(33, 16, 1, 1);
    XorBits(67, 33, 1, 1);
    XorBits(135, 67, 0, 1);
  }

  lemma LowTable()
    ensures Xor(0, 0) == 0 && Xor(33, 16) == 49
  {
    assert Xor(1, 0) == 1 && Xor(2, 1) == 3 && Xor(4, 2) == 6;
    assert Xor(8, 4) == 12 && Xor(16, 8) == 24;
  }

  /** Twice the number without its top bit. */
  function TopBitOff(n: nat, v: nat, quarter: nat): (r: nat)
    requires v < 4 && v * quarter <= n
  {
    Fourfold(v, quarter);
    2 * n - v / 2 * (4 * quarter)
  }

  lemma DblOf(n: nat, v: nat, quarter: nat)
    requires v < 4 && v * quarter <= n < v * quarter + quarter && Power256(16) == 4 * quarter
    ensures Dbl(n) == Xor(TopBitOff(n, v, quarter), v / 2 * 0x87)
  {
    hide Xor, Power256;
    Fourfold(v, quarter);
    XorNothing(2 * n);
  }

  /** The low 128 bits. */
  function Low(n: nat): nat {
    n % Power256(16)
  }

  /** What two shifts carry when the top bits are `v`. */
  function Carried(v: nat): nat {
    v / 2 * 256 + Lut(v)
  }

  /** The first subkey: one shift and the carry of the top bit. */
  lemma FirstKey(l: Block)
    ensures Dbl(BigEndian(l)) == Xor(Low(2 * BigEndian(l)), Lut(l[0] / 128))
  {
    hide Dbl, Xor, BigEndian, Power256;
    var v, quarter := TopBits(l);
    ShiftedOut(BigEndian(l), v, quarter);
    DblOf(BigEndian(l), v, quarter);
    assert l[0] / 128 == v / 2;
  }

  /** Doubling what the first doubling gave: `x` is the number without its top bit, `c` what
      was carried. */
  lemma DblAgain(x: nat, c: Byte, half: nat)
    requires x < 2 * half * 256 && Power256(16) == 2 * half * 256 && c <= 0x87 && half >= 2
    ensures Dbl(Xor(x, c))
         == if x < half * 256 then Xor(2 * x, 2 * c) else Xor(Xor(2 * x - Power256(16), 2 * c), 0x87)
  {
    hide Xor, Power256;
    XorKeepsOrder(x, c, half);
    XorBits(x, c, 0, 0);
    if x >= half * 256 {
      XorAbove(2 * x - Power256(16), 2 * c);
    }
  }

  lemma CarriedTwice(v: nat)
    requires v < 4
    ensures Xor(2 * (v / 2 * 0x87), v % 2 * 0x87) == Carried(v)
  {
    hide Xor;
    XorTables();
  }

  lemma DblTwice(n: nat, v: nat, quarter: nat, half: nat)
    requires v < 4 && v * quarter <= n < v * quarter + quarter && Power256(16) == 4 * quarter
    requires quarter == half * 128 && half >= 2
    ensures Dbl(Dbl(n)) == Xor(4 * n - v * (4 * quarter), Carried(v))
  {
    hide Dbl, Xor, Power256, Carried;
    var x: nat, c: Byte := TopBitOff(n, v, quarter), v / 2 * 0x87;
    Fourfold(v, quarter);
    DblOf(n, v, quarter);
    DblAgain(x, c, half);
    CarriedTwice(v);
    if v % 2 == 1 {
      XorAssociates(2 * x - Power256(16), 2 * c, 0x87);
    } else {
      XorNothing(2 * c);
    }
  }

  /** The second subkey: two shifts and both carries from the table. */
  lemma SecondKey(l: Block)
    ensures Dbl(Dbl(BigEndian(l))) == Xor(Low(4 * BigEndian(l)), Carried(l[0] / 64))
  {
    hide Dbl, Xor, BigEndian, Power256, Carried;
    var v, quarter := TopBits(l);
    ShiftedOut(BigEndian(l), v, quarter);
    FifteenBytes();
    DblTwice(BigEndian(l), v, quarter, quarter / 128);
  }

  lemma FifteenBytes()
    ensures Power256(15) == 256 * Power256(14)
  {
  }
}
