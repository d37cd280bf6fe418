/** Diffie-Hellman agreement (pond-sec/app/static/novnc/core/crypto/dh.js). */
module DH {
  import opened BigIntegers
  import opened Bytes
  import opened Powers

  function Longest(a: nat, b: nat): nat {
    if a > b then a else b
  }

  /** `slice(0, n)`. */
  function FirstBytes(bytes: seq<Byte>, n: nat): seq<Byte> {
    if n <= |bytes| then bytes[..n] else bytes
  }

  /** The public key of private key `x`. */
  function PublicKey(g: seq<Byte>, p: seq<Byte>, x: seq<Byte>): seq<Byte>
    requires BigEndian(p) > 0
  {
    ToBytes(PowMod(BigEndian(g), BigEndian(x), BigEndian(p)), |p|)
  }

  /** The secret that private key `x` derives from the other side's public key. */
  function Secret(p: seq<Byte>, x: seq<Byte>, public: seq<Byte>, length: nat): Attempt<seq<Byte>>
    requires BigEndian(p) > 0
  {
    var len := Longest((length + 7) / 8, |p|);
    match FromBytes(public)
    case Thrown => Thrown
    case Returned(key) => Returned(FirstBytes(ToBytes(PowMod(key, BigEndian(x), BigEndian(p)), len), len))
  }

  class DHCipher {
    var keyBytes: nat
    var gBigInt: nat
    var pBigInt: nat
    var privateKeyBigInt: nat
    var publicKey: seq<Byte>

    constructor ()
    {
      keyBytes, gBigInt, pBigInt, privateKeyBigInt, publicKey := 0, 0, 0, 0, [];
    }

    ghost predicate Holds(g: seq<Byte>, p: seq<Byte>, x: seq<Byte>)
      reads this
    {
      && keyBytes == |p| && gBigInt == BigEndian(g) && pBigInt == BigEndian(p) > 0 && privateKeyBigInt == BigEndian(x)
      && publicKey == PublicKey(g, p, x)
    }

    /** `random` are the bytes drawn for the private key. */
    method GenerateKey(g: seq<Byte>, p: seq<Byte>, random: seq<Byte>) returns (ok: bool)
      requires |random| == |p|
      modifies this
      ensures ok == (g != [] && BigEndian(p) > 0)
      ensures ok ==> Holds(g, p, random)
    {
      ok := false;
      keyBytes := |p|;
      var number := U8ArrayToBigInt(g);
      if number.Thrown? {
        return;
      }
      gBigInt := number.value;
      number := U8ArrayToBigInt(p);
      if number.Thrown? {
        return;
      }
      pBigInt := number.value;
      number := U8ArrayToBigInt(random);
      privateKeyBigInt := number.value;
      number := ModPow(gBigInt, privateKeyBigInt, pBigInt);
      if number.Thrown? {
        return;
      }
      var bytes := BigIntToU8Array(number.value, keyBytes);
      publicKey := bytes[..];
      ok := true;
    }

    method DeriveBits(public: seq<Byte>, length: nat, ghost g: seq<Byte>, ghost p: seq<Byte>, ghost x: seq<Byte>)
      returns (r: Attempt<seq<Byte>>)
      requires Holds(g, p, x)
      ensures r == Secret(p, x, public, length)
    {
      var bytes := (length + 7) / 8;
      var len := if bytes > keyBytes then bytes else keyBytes;
      var key := U8ArrayToBigInt(public);
      if key.Thrown? {
        return Thrown;
      }
      var secret := ModPow(key.value, privateKeyBigInt, pBigInt);
      var arr := BigIntToU8Array(secret.value, len);
      return Returned(FirstBytes(arr[..], len));
    }
  }

  // ----- agreement ------------------------------------------------------------------------------

  lemma PublicNumber(g: seq<Byte>, p: seq<Byte>, x: seq<Byte>)
    requires BigEndian(p) > 0
    ensures FromBytes(PublicKey(g, p, x)) == Returned(PowMod(BigEndian(g), BigEndian(x), BigEndian(p)))
  {
    FitsModulus(BigEndian(g), BigEndian(x), p, |p|);
    hide PowMod, BigEndian, Power256, ToBytes;
    FittingBytes(PowMod(BigEndian(g), BigEndian(x), BigEndian(p)), |p|);
  }

  lemma SecretNumber(p: seq<Byte>, x: seq<Byte>, public: seq<Byte>, length: nat)
    requires BigEndian(p) > 0 && public != []
    ensures var r := Secret(p, x, public, length);
            && r.Returned? && |r.value| == Longest((length + 7) / 8, |p|)
            && BigEndian(r.value) == PowMod(BigEndian(public), BigEndian(x), BigEndian(p))
  {
    var len := Longest((length + 7) / 8, |p|);
    FitsModulus(BigEndian(public), BigEndian(x), p, len);
    hide PowMod, BigEndian, Power256, ToBytes;
    var secret := PowMod(BigEndian(public), BigEndian(x), BigEndian(p));
    FittingBytes(secret, len);
    assert ToBytes(secret, len)[..len] == ToBytes(secret, len);
  }

  /** Both exponents end up on the base. */
  lemma PowersCommute(g: nat, x: nat, y: nat, m: nat)
    requires m >= 2
    ensures PowMod(PowMod(g, x, m), y, m) == Power(g, x * y) % m
  {
    PowModExact(g, x, m);
    PowModExact(PowMod(g, x, m), y, m);
    ModPower(Power(g, x), y, m);
    PowerTimes(g, x, y);
  }

  lemma NumbersAgree(g: nat, x: nat, y: nat, m: nat)
    requires m >= 1
    ensures PowMod(PowMod(g, y, m), x, m) == PowMod(PowMod(g, x, m), y, m) <==> m >= 2 || (x == 0 <==> y == 0)
  {
    if m >= 2 {
      PowersCommute(g, x, y, m);
      PowersCommute(g, y, x, m);
      Swapped(x, y);
    }
  }

  /** Both sides derive the same bytes, of every length asked for, exactly when the modulus
      is not 1 or both private keys are zero or neither is. */
  lemma Agreement(g: seq<Byte>, p: seq<Byte>, x: seq<Byte>, y: seq<Byte>, length: nat)
    requires BigEndian(p) > 0
    ensures Secret(p, x, PublicKey(g, p, y), length) == Secret(p, y, PublicKey(g, p, x), length)
       <==> BigEndian(p) >= 2 || (BigEndian(x) == 0 <==> BigEndian(y) == 0)
  {
    PublicNumber(g, p, x);
    PublicNumber(g, p, y);
    SecretNumber(p, x, PublicKey(g, p, y), length);
    SecretNumber(p, y, PublicKey(g, p, x), length);
    NumbersAgree(BigEndian(g), BigEndian(x), BigEndian(y), BigEndian(p));
    hide Secret, PublicKey, PowMod, BigEndian;
    var a, b := Secret(p, x, PublicKey(g, p, y), length), Secret(p, y, PublicKey(g, p, x), length);
    if BigEndian(a.value) == BigEndian(b.value) {
      SameNumber(a.value, b.value);
    }
  }

  /** The public key is the generator to the power of the private key, on as many bytes as the
      prime. */
  lemma PublicKeyNumber(g: seq<Byte>, p: seq<Byte>, x: seq<Byte>)
    requires BigEndian(p) >= 2
    ensures |PublicKey(g, p, x)| == |p|
    ensures BigEndian(PublicKey(g, p, x)) == Power(BigEndian(g), BigEndian(x)) % BigEndian(p)
  {
    FitsModulus(BigEndian(g), BigEndian(x), p, |p|);
    PowModExact(BigEndian(g), BigEndian(x), BigEndian(p));
    hide PowMod, BigEndian, Power256, ToBytes, Power;
    FittingBytes(PowMod(BigEndian(g), BigEndian(x), BigEndian(p)), |p|);
  }

  function AgreedNumber(g: nat, x: nat, y: nat, m: nat): nat
    requires m > 0
  {
    Power(g, x * y) % m
  }

  /** The agreed secret is the generator to the power of the product of the private keys. */
  lemma SecretIsPower(g: seq<Byte>, p: seq<Byte>, x: seq<Byte>, y: seq<Byte>, length: nat)
    requires BigEndian(p) >= 2
    ensures var r := Secret(p, y, PublicKey(g, p, x), length);
            && r.Returned? && |r.value| == (if (length + 7) / 8 > |p| then (length + 7) / 8 else |p|)
            && BigEndian(r.value) == AgreedNumber(BigEndian(g), BigEndian(x), BigEndian(y), BigEndian(p))
  {
    assert p != [];
    PublicNumber(g, p, x);
    PublicKeyNumber(g, p, x);
    PowersCommute(BigEndian(g), BigEndian(x), BigEndian(y), BigEndian(p));
    PowModExact(BigEndian(g), BigEndian(x), BigEndian(p));
    SecretNumber(p, y, PublicKey(g, p, x), length);
    hide Secret, PublicKey, PowMod, BigEndian, Power;
  }
}
