/** Big integers and their bytes (pond-sec/app/static/novnc/core/crypto/bigint.js). */
module BigIntegers {
  import opened Arithmetic
  import opened Bytes
  import opened Powers

  /** A call returns a value or throws. */
  datatype Attempt<+T> = Returned(value: T) | Thrown

  // ----- modular exponentiation -------------------------------------------------------------

  /** What modPow computes for a modulus that is not zero. */
  function PowMod(b: nat, e: nat, m: nat): nat
    requires m > 0
  {
    if e == 0 then 1 else Power(b, e) % m
  }

  /** This is the power modulo `m` except for exponent 0 and modulus 1. */
  lemma PowModExact(b: nat, e: nat, m: nat)
    requires m > 0
    ensures PowMod(b, e, m) == Power(b, e) % m <==> !(m == 1 && e == 0)
  {
    if e == 0 {
      assert Power(b, 0) == 1;
    }
  }

  lemma PowModFits(b: nat, e: nat, m: nat)
    requires m > 0
    ensures PowMod(b, e, m) < m || (m == 1 && e == 0 && PowMod(b, e, m) == 1)
  {
  }

  /** `goal` is what is left to compute: `r` times `b` to the `e`. */
  ghost predicate Remains(goal: nat, r: nat, b: nat, e: nat, m: nat)
    requires m > 0
  {
    r * Power(b, e) % m == goal
  }

  lemma Halve(goal: nat, r: nat, b: nat, e: nat, m: nat)
    requires m > 0 && e > 0 && Remains(goal, r, b, e, m)
    ensures Remains(goal, if e % 2 == 1 then r * b % m else r, b * b % m, e / 2, m)
  {
    var p := Power(b * b, e / 2);
    PowerSquare(b, e / 2);
    ModPower(b * b, e / 2, m);
    var next := if e % 2 == 1 then r * b % m else r;
    Swapped(next, Power(b * b % m, e / 2));
    ModFactor(Power(b * b % m, e / 2), next, m);
    ModFactor(p, next, m);
    Swapped(next, p);
    if e % 2 == 1 {
      assert Power(b, e) == b * Power(b, e - 1);
      Regrouped(r, b, p);
      ModFactor(r * b, p, m);
    }
    hide Power;
  }

  method ModPow(base: nat, exponent: nat, m: nat) returns (result: Attempt<nat>)
    ensures result == if m == 0 then Thrown else Returned(PowMod(base, exponent, m))
  {
    hide Power, Remains;
    if m == 0 {
      return Thrown;
    }
    var r: nat, b: nat, e := 1, base % m, exponent;
    ghost var goal := Power(base, exponent) % m;
    RemainsAll(goal, base, exponent, m);
    while e > 0
      invariant Remains(goal, r, b, e, m)
      invariant r < m || (r == 1 && (e > 0 || exponent == 0))
      invariant exponent == 0 ==> e == 0 && r == 1
    {
      Halve(goal, r, b, e, m);
      if e % 2 == 1 {
        r := r * b % m;
      }
      e := e / 2;
      b := b * b % m;
    }
    RemainsNone(goal, r, b, m);
    return Returned(r);
  }

  lemma RemainsAll(goal: nat, b: nat, e: nat, m: nat)
    requires m > 0 && goal == Power(b, e) % m
    ensures Remains(goal, 1, b % m, e, m)
  {
    ModPower(b, e, m);
  }

  lemma RemainsNone(goal: nat, r: nat, b: nat, m: nat)
    requires m > 0 && Remains(goal, r, b, 0, m)
    ensures goal == r % m && (r < m ==> goal == r)
  {
    assert Power(b, 0) == 1;
    if r < m {
      DivideUnique(r, 0, m);
    }
  }

  // ----- hexadecimal digits -------------------------------------------------------------------

  type HexDigit = d: int | 0 <= d < 16 witness 0

  /** The digits of a number, without leading zeros. */
  function Hex(n: nat): (digits: seq<HexDigit>)
    ensures |digits| >= 1
  {
    if n < 16 then [n] else Hex(n / 16) + [n % 16]
  }

  function HexValue(digits: seq<HexDigit>): nat {
    if digits == [] then 0 else HexValue(digits[..|digits| - 1]) * 16 + digits[|digits| - 1]
  }

  function Zeros(n: nat): (digits: seq<HexDigit>)
    ensures |digits| == n
  {
    seq(n, _ => 0)
  }

  function PadStart(digits: seq<HexDigit>, n: nat): (r: seq<HexDigit>)
    ensures |r| == if |digits| < n then n else |digits|
  {
    if |digits| < n then Zeros(n - |digits|) + digits else digits
  }

  lemma HexValuePush(digits: seq<HexDigit>, d: HexDigit)
    ensures HexValue(digits + [d]) == HexValue(digits) * 16 + d
  {
    assert (digits + [d])[..|digits|] == digits;
  }

  lemma {:induction false} HexBack(n: nat)
    ensures HexValue(Hex(n)) == n
  {
    if n < 16 {
      assert Hex(n)[..0] == [];
    } else {
      HexBack(n / 16);
      HexValuePush(Hex(n / 16), n % 16);
    }
  }

  lemma {:induction false} ZerosCountNothing(k: nat, digits: seq<HexDigit>)
    ensures HexValue(Zeros(k) + digits) == HexValue(digits)
    decreases |digits|, k
  {
    if digits != [] {
      var n := |digits| - 1;
      assert Zeros(k) + digits == Zeros(k) + digits[..n] + [digits[n]];
      ZerosCountNothing(k, digits[..n]);
      HexValuePush(Zeros(k) + digits[..n], digits[n]);
      HexValuePush(digits[..n], digits[n]);
      assert digits[..n] + [digits[n]] == digits;
    } else if k > 0 {
      assert Zeros(k) + [] == Zeros(k - 1) + [0];
      assert Zeros(k - 1) + [] == Zeros(k - 1);
      ZerosCountNothing(k - 1, []);
      HexValuePush(Zeros(k - 1), 0);
    }
  }

  /** A number has at most `2 * k` digits exactly when it fits `k` bytes. */
  lemma {:induction false} HexFits(n: nat, k: nat)
    requires k >= 1
    ensures |Hex(n)| <= 2 * k <==> n < Power256(k)
    decreases k
  {
    if k == 1 {
      assert Power256(0) == 1;
      if n >= 256 {
        assert |Hex(n / 16 / 16)| >= 1;
      }
    } else if n >= 256 {
      HexFits(n / 256, k - 1);
      assert n / 16 / 16 == n / 256;
      assert Hex(n) == Hex(n / 16 / 16) + [n / 16 % 16] + [n % 16];
    } else {
      ShortHex(n / 16);
    }
  }

  function PairOf(high: HexDigit, low: HexDigit): Byte {
    high as int * 16 + low as int
  }

  /** Pairs of digits as bytes; an odd digit at the end is dropped. */
  function Pairs(digits: seq<HexDigit>): (bytes: seq<Byte>)
    ensures |bytes| == |digits| / 2
  {
    seq(|digits| / 2, i requires 0 <= i < |digits| / 2 => PairOf(digits[i * 2], digits[i * 2 + 1]))
  }

  lemma {:induction false} PairsValue(digits: seq<HexDigit>)
    ensures BigEndian(Pairs(digits)) == (if |digits| % 2 == 0 then HexValue(digits) else HexValue(digits) / 16)
    decreases |digits|
  {
    var n := |digits|;
    if n % 2 == 1 {
      assert Pairs(digits) == Pairs(digits[..n - 1]);
      PairsValue(digits[..n - 1]);
    } else if n > 0 {
      var front, pair := digits[..n - 2], PairOf(digits[n - 2], digits[n - 1]);
      PairsValue(front);
      assert Pairs(digits) == Pairs(front) + [pair];
      BigEndianPush(Pairs(front), pair);
      assert digits[..n - 1][..n - 2] == front;
      assert HexValue(digits) == (HexValue(front) * 16 + digits[n - 2]) * 16 + digits[n - 1];
    }
  }

  // ----- numbers to bytes and back ---------------------------------------------------------------

  /** The bytes of a number: its digits, padded to `padLength` bytes. */
  function ToBytes(n: nat, padLength: nat): seq<Byte> {
    Pairs(PaddedHex(n, padLength))
  }

  function PaddedHex(n: nat, padLength: nat): seq<HexDigit> {
    PadStart(Hex(n), 2 * if padLength == 0 then (|Hex(n)| + 1) / 2 else padLength)
  }

  lemma PairAt(digits: seq<HexDigit>, i: nat)
    requires i < |digits| / 2
    ensures i * 2 + 1 < |digits| && Pairs(digits)[i] == PairOf(digits[i * 2], digits[i * 2 + 1])
  {
  }

  method BigIntToU8Array(bigint: nat, padLength: nat) returns (arr: array<Byte>)
    ensures fresh(arr) && arr[..] == ToBytes(bigint, padLength)
  {
    hide Pairs, PairOf, Hex;
    var hex, pad := Hex(bigint), padLength;
    if pad == 0 {
      pad := (|hex| + 1) / 2;
    }
    hex := PadStart(hex, pad * 2);
    arr := new Byte[|hex| / 2](_ => 0);
    var i := 0;
    while i * 2 < |hex|
      invariant i <= (|hex| + 1) / 2
      invariant forall k :: 0 <= k < i && k < arr.Length ==> arr[k] == Pairs(hex)[k]
    {
      if i < arr.Length {
        PairAt(hex, i);
        arr[i] := PairOf(hex[i * 2], hex[i * 2 + 1]);
      }
      i := i + 1;
    }
    assert arr[..] == Pairs(hex);
  }

  method U8ArrayToBigInt(arr: seq<Byte>) returns (r: Attempt<nat>)
    ensures r == FromBytes(arr)
  {
    var hex: seq<HexDigit> := [];
    for i := 0 to |arr|
      invariant |hex| == 2 * i && HexValue(hex) == BigEndian(arr[..i])
    {
      var digits := PadStart(Hex(arr[i]), 2);
      TwoDigits(arr[i]);
      HexValuePush(hex, digits[0]);
      HexValuePush(hex + [digits[0]], digits[1]);
      assert hex + digits == hex + [digits[0]] + [digits[1]];
      assert arr[..i + 1] == arr[..i] + [arr[i]];
      BigEndianPush(arr[..i], arr[i]);
      hex := hex + digits;
    }
    assert arr[..|arr|] == arr;
    return if hex == [] then Thrown else Returned(HexValue(hex));
  }

  /** The number of some bytes; without any byte the hexadecimal literal is malformed. */
  function FromBytes(arr: seq<Byte>): Attempt<nat> {
    if arr == [] then Thrown else Returned(BigEndian(arr))
  }

  lemma TwoDigits(b: Byte)
    ensures PadStart(Hex(b), 2) == [b / 16, b % 16]
  {
  }

  lemma PaddedValue(n: nat, padLength: nat)
    ensures HexValue(PaddedHex(n, padLength)) == n
  {
    HexBack(n);
    var missing := |PaddedHex(n, padLength)| - |Hex(n)|;
    if missing > 0 {
      ZerosCountNothing(missing, Hex(n));
    }
    hide Hex, HexValue;
  }

  lemma PaddedCount(n: nat, padLength: nat)
    ensures var digits := PaddedHex(n, padLength);
            && |digits| >= 2 && (n < 16 ==> |digits| % 2 == 0)
            && (|digits| % 2 == 0 <==> padLength == 0 || n < Power256(padLength) || |Hex(n)| % 2 == 0)
  {
    ShortHex(n);
    if padLength > 0 {
      HexFits(n, padLength);
    }
    hide Hex, Power256;
  }

  /** The bytes give the number back exactly when no digit is dropped: it fits the bytes, or
      the number of its digits is even. */
  lemma NumberBack(n: nat, padLength: nat)
    ensures FromBytes(ToBytes(n, padLength)) == Returned(n)
       <==> padLength == 0 || n < Power256(padLength) || |Hex(n)| % 2 == 0
  {
    PaddedValue(n, padLength);
    PaddedCount(n, padLength);
    PairsValue(PaddedHex(n, padLength));
    hide Hex, PaddedHex, HexValue, Pairs, BigEndian, Power256;
  }

  lemma ShortHex(n: nat)
    ensures n < 16 <==> |Hex(n)| == 1
  {
  }

  /** The least padding that keeps every byte gives the bytes back. */
  lemma BytesBack(arr: seq<Byte>)
    requires arr != []
    ensures ToBytes(BigEndian(arr), |arr|) == arr
  {
    var n := BigEndian(arr);
    BigEndianBounds(arr);
    HexFits(n, |arr|);
    NumberBack(n, |arr|);
    hide Hex, Pairs, Power256;
    SameNumber(ToBytes(n, |arr|), arr);
  }

  lemma FittingBytes(n: nat, k: nat)
    requires k >= 1 && n < Power256(k)
    ensures |ToBytes(n, k)| == k && BigEndian(ToBytes(n, k)) == n
  {
    HexFits(n, k);
    NumberBack(n, k);
  }

  /** A reduced power fits the bytes of the modulus. */
  lemma FitsModulus(b: nat, e: nat, p: seq<Byte>, k: nat)
    requires BigEndian(p) > 0 && k >= |p|
    ensures PowMod(b, e, BigEndian(p)) < Power256(k) && k >= 1
  {
    BigEndianBounds(p);
    Power256Grows(|p|, k);
    PowModFits(b, e, BigEndian(p));
    assert p != [];
    Power256Grows(1, |p|);
    assert Power256(1) == 256 * Power256(0) == 256;
  }
}
