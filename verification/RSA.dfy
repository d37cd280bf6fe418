/** RSA with PKCS#1 v1.5 padding (sections 7.2.1 and 7.2.2 of RFC 8017;
    pond-sec/app/static/novnc/core/crypto/rsa.js). */
module RSA {
  import opened Arithmetic
  import opened BigIntegers
  import opened Bytes
  import opened Powers

  /** A random byte becomes a padding byte. */
  function PadByte(random: Byte): (r: Byte)
    ensures r != 0
  {
    random as int * 254 / 255 + 1
  }

  /** Only a zero changes, so every byte but zero can stand in the padding. */
  lemma PadByteExactly(random: Byte)
    ensures PadByte(random) == if random == 0 then 1 else random
  {
    if random > 0 {
      DivideUnique(random * 254, random - 1, 255);
    }
  }

  function PadBytes(random: seq<Byte>): (ps: seq<Byte>)
    ensures |ps| == |random| && forall i :: 0 <= i < |ps| ==> ps[i] != 0
  {
    seq(|random|, i requires 0 <= i < |random| => PadByte(random[i]))
  }

  /** The encoded message: 0, 2, padding, 0, message. */
  function Encoded(message: seq<Byte>, random: seq<Byte>): seq<Byte> {
    [0, 2] + PadBytes(random) + [0] + message
  }

  function Encrypted(n: nat, e: nat, k: nat, message: seq<Byte>, random: seq<Byte>): Attempt<Answer> {
    if |message| > k - 11 then Returned(Null)
    else if n == 0 then Thrown
    else Returned(Answer(ToBytes(PowMod(BigEndian(Encoded(message, random)), e, n), k)))
  }

  /** What stands behind the first zero of an encoded message, from its third byte on. */
  function Message(em: seq<Byte>): Answer {
    if |em| < 2 || em[0] != 0 || em[1] != 2 then Null else BehindZero(em[2..])
  }

  function BehindZero(bytes: seq<Byte>): Answer {
    if bytes == [] then Null else if bytes[0] == 0 then Answer(bytes[1..]) else BehindZero(bytes[1..])
  }

  function Decrypted(n: nat, d: nat, k: nat, message: seq<Byte>): Attempt<Answer> {
    if |message| != k then Returned(Null)
    else if message == [] || n == 0 then Thrown
    else Returned(Message(ToBytes(PowMod(BigEndian(message), d, n), k)))
  }

  class RSACipher {
    const keyBytes: nat
    const nBigInt: nat
    const eBigInt: nat
    const dBigInt: nat

    /** Modulus and exponents of equal length. */
    constructor (n: seq<Byte>, e: seq<Byte>, d: seq<Byte>)
      requires |n| == |e| == |d| > 0
      ensures keyBytes == |n| && nBigInt == BigEndian(n) && eBigInt == BigEndian(e) && dBigInt == BigEndian(d)
    {
      keyBytes := |n|;
      var number := U8ArrayToBigInt(n);
      nBigInt := number.value;
      number := U8ArrayToBigInt(e);
      eBigInt := number.value;
      number := U8ArrayToBigInt(d);
      dBigInt := number.value;
    }

    /** `random` are the bytes drawn for the padding. */
    method Encrypt(message: seq<Byte>, random: seq<Byte>) returns (r: Attempt<Answer>)
      requires |message| <= keyBytes - 11 ==> |random| == keyBytes - |message| - 3
      ensures r == Encrypted(nBigInt, eBigInt, keyBytes, message, random)
    {
      if |message| > keyBytes - 11 {
        return Returned(Null);
      }
      var ps := new Byte[keyBytes - |message| - 3](i requires 0 <= i < |random| => random[i]);
      for i := 0 to ps.Length
        invariant forall j :: 0 <= j < i ==> ps[j] == PadByte(random[j])
        invariant forall j :: i <= j < ps.Length ==> ps[j] == random[j]
      {
        ps[i] := PadByte(ps[i]);
      }
      assert ps[..] == PadBytes(random);
      var em := new Byte[keyBytes](_ => 0);
      em[1] := 2;
      forall i | 0 <= i < ps.Length {
        em[i + 2] := ps[i];
      }
      forall i | 0 <= i < |message| {
        em[ps.Length + 3 + i] := message[i];
      }
      assert em[..] == Encoded(message, random);
      var emBigInt := U8ArrayToBigInt(em[..]);
      var c := ModPow(emBigInt.value, eBigInt, nBigInt);
      if c.Thrown? {
        return Thrown;
      }
      var arr := BigIntToU8Array(c.value, keyBytes);
      return Returned(Answer(arr[..]));
    }

    method Decrypt(message: seq<Byte>) returns (r: Attempt<Answer>)
      ensures r == Decrypted(nBigInt, dBigInt, keyBytes, message)
    {
      if |message| != keyBytes {
        return Returned(Null);
      }
      var msgBigInt := U8ArrayToBigInt(message);
      if msgBigInt.Thrown? {
        return Thrown;
      }
      var emBigInt := ModPow(msgBigInt.value, dBigInt, nBigInt);
      if emBigInt.Thrown? {
        return Thrown;
      }
      var em := BigIntToU8Array(emBigInt.value, keyBytes);
      ghost var encoded := em[..];
      if em.Length < 2 || em[0] != 0 || em[1] != 2 {
        return Returned(Null);
      }
      var i := 2;
      while i < em.Length
        invariant 2 <= i <= em.Length && em[..] == encoded
        invariant BehindZero(encoded[2..]) == BehindZero(encoded[i..])
      {
        if em[i] == 0 {
          break;
        }
        assert encoded[i..][1..] == encoded[i + 1..];
        i := i + 1;
      }
      if i == em.Length {
        return Returned(Null);
      }
      assert encoded[i..][1..] == encoded[i + 1..] == em[i + 1..];
      return Returned(Answer(em[i + 1..]));
    }
  }

  // ----- decryption undoes encryption -------------------------------------------------------------

  /** What makes `e` and `d` a key pair for `n`. */
  ghost predicate KeyPair(n: nat, e: nat, d: nat) {
    n > 0 && forall x: nat :: x < n ==> Power(Power(x, e), d) % n == x
  }

  lemma {:induction false} FirstZero(ps: seq<Byte>, message: seq<Byte>)
    requires forall i :: 0 <= i < |ps| ==> ps[i] != 0
    ensures BehindZero(ps + [0] + message) == Answer(message)
    decreases |ps|
  {
    var bytes := ps + [0] + message;
    if ps == [] {
      assert bytes[1..] == message;
    } else {
      assert bytes[1..] == ps[1..] + [0] + message;
      FirstZero(ps[1..], message);
    }
  }

  /** No padding byte is zero, so that the message is found behind the first one. */
  lemma MessageBack(message: seq<Byte>, random: seq<Byte>)
    ensures Message(Encoded(message, random)) == Answer(message)
  {
    var ps := PadBytes(random);
    assert Encoded(message, random)[2..] == ps + [0] + message;
    FirstZero(ps, message);
  }

  lemma {:induction false} LeadingByte(bytes: seq<Byte>)
    requires bytes != []
    ensures bytes[0] == 0 ==> BigEndian(bytes) < Power256(|bytes| - 1)
    ensures bytes[0] != 0 ==> BigEndian(bytes) >= Power256(|bytes| - 1)
    decreases |bytes|
  {
    var n := |bytes| - 1;
    if n == 0 {
      assert bytes[..0] == [];
    } else {
      LeadingByte(bytes[..n]);
    }
  }

  /** The encoded message is below the modulus. */
  lemma BelowModulus(nBytes: seq<Byte>, message: seq<Byte>, random: seq<Byte>)
    requires nBytes != [] && nBytes[0] != 0 && |message| + 11 <= |nBytes| && |random| == |nBytes| - |message| - 3
    ensures |Encoded(message, random)| == |nBytes| && BigEndian(Encoded(message, random)) < BigEndian(nBytes)
    ensures BigEndian(nBytes) >= 2
  {
    LeadingByte(nBytes);
    LeadingByte(Encoded(message, random));
    Power256Grows(1, |nBytes| - 1);
    assert Power256(1) == 256 * Power256(0) == 256;
  }

  lemma PowersUndo(n: nat, e: nat, d: nat, x: nat)
    requires KeyPair(n, e, d) && x < n && n >= 2
    ensures PowMod(PowMod(x, e, n), d, n) == x
  {
    PowModExact(x, e, n);
    PowModExact(PowMod(x, e, n), d, n);
    ModPower(Power(x, e), d, n);
  }

  /** With a key pair whose modulus has a leading byte that is not zero, every message of at
      most k - 11 bytes comes back, whatever bytes were drawn for the padding; longer ones
      are refused. */
  lemma RoundTrip(nBytes: seq<Byte>, e: nat, d: nat, message: seq<Byte>, random: seq<Byte>)
    requires nBytes != [] && nBytes[0] != 0 && KeyPair(BigEndian(nBytes), e, d)
    requires |message| + 11 <= |nBytes| ==> |random| == |nBytes| - |message| - 3
    ensures var n, k := BigEndian(nBytes), |nBytes|;
            var c := Encrypted(n, e, k, message, random);
            if |message| > k - 11 then c == Returned(Null)
            else c.Returned? && c.value.Answer? && |c.value.bytes| == k
                 && Decrypted(n, d, k, c.value.bytes) == Returned(Answer(message))
  {
    var n, k := BigEndian(nBytes), |nBytes|;
    if |message| + 11 <= k {
      var em := Encoded(message, random);
      BelowModulus(nBytes, message, random);
      PowersUndo(n, e, d, BigEndian(em));
      FitsModulus(BigEndian(em), e, nBytes, k);
      FittingBytes(PowMod(BigEndian(em), e, n), k);
      BytesBack(em);
      MessageBack(message, random);
      hide Message, Encoded, PowMod, ToBytes, BigEndian, Power256, KeyPair;
    }
  }

  // ----- decryption and section 7.2.2 of RFC 8017 -----------------------------------------------------

  /** `em` is 0, 2, a padding of at least `least` bytes without a zero, 0, `message`. */
  predicate Encodes(em: seq<Byte>, padding: seq<Byte>, message: seq<Byte>, least: nat) {
    && |padding| >= least && 0 !in padding
    && em == [0, 2] + padding + [0] + message
  }

  /** Step 3 of the section: the padding has at least eight bytes. */
  function RfcMessage(em: seq<Byte>): Answer {
    if exists i :: 2 <= i < 10 && i < |em| && em[i] == 0 then Null else Message(em)
  }

  /** The section, with the error of every step as Null: also a ciphertext that is not below
      the modulus is an error. */
  function RfcDecrypted(n: nat, d: nat, k: nat, message: seq<Byte>): Answer
    requires n > 0
  {
    if |message| != k || k < 11 || BigEndian(message) >= n then Null
    else RfcMessage(ToBytes(PowMod(BigEndian(message), d, n), k))
  }

  /** A zero among the eight bytes behind the header. */
  predicate ShortPadding(em: seq<Byte>) {
    |em| >= 3 && em[0] == 0 && em[1] == 2 && exists i :: 2 <= i < 10 && i < |em| && em[i] == 0
  }

  lemma {:induction false} SplitAtZero(bytes: seq<Byte>) returns (padding: seq<Byte>)
    requires BehindZero(bytes).Answer?
    ensures 0 !in padding && bytes == padding + [0] + BehindZero(bytes).bytes
    decreases |bytes|
  {
    if bytes[0] == 0 {
      padding := [];
      assert bytes == [0] + bytes[1..];
    } else {
      var rest := SplitAtZero(bytes[1..]);
      padding := [bytes[0]] + rest;
      assert bytes == [bytes[0]] + bytes[1..];
    }
  }

  /** What decryption takes for encoded messages: a padding of any length, even none. */
  lemma MessageExactly(em: seq<Byte>, message: seq<Byte>)
    ensures Message(em) == Answer(message) <==> exists padding :: Encodes(em, padding, message, 0)
  {
    if Message(em) == Answer(message) {
      var padding := SplitAtZero(em[2..]);
      assert em == [0, 2] + em[2..];
      assert Encodes(em, padding, message, 0);
    }
    if padding :| Encodes(em, padding, message, 0) {
      assert em[2..] == padding + [0] + message;
      FirstZero(padding, message);
    }
  }

  lemma PaddingFront(em: seq<Byte>, padding: seq<Byte>, message: seq<Byte>, i: nat)
    requires Encodes(em, padding, message, 0) && 2 <= i < |padding| + 2
    ensures i < |em| && em[i] != 0
  {
    assert em[i] == padding[i - 2];
  }

  /** What the section takes for them. */
  lemma RfcExactly(em: seq<Byte>, message: seq<Byte>)
    ensures RfcMessage(em) == Answer(message) <==> exists padding :: Encodes(em, padding, message, 8)
  {
    MessageExactly(em, message);
    if RfcMessage(em) == Answer(message) {
      var padding :| Encodes(em, padding, message, 0);
      assert em[|padding| + 2] == 0;
      assert Encodes(em, padding, message, 8);
    }
    if padding :| Encodes(em, padding, message, 8) {
      assert Encodes(em, padding, message, 0);
      forall i | 2 <= i < 10 ensures i < |em| && em[i] != 0 {
        PaddingFront(em, padding, message, i);
      }
    }
  }

  lemma {:induction false} ZeroIsFound(bytes: seq<Byte>, i: nat)
    requires i < |bytes| && bytes[i] == 0
    ensures BehindZero(bytes).Answer?
    decreases |bytes|
  {
    if bytes[0] != 0 {
      ZeroIsFound(bytes[1..], i - 1);
    }
  }

  /** Decryption and the section read an encoded message alike if and only if its padding is
      not short. */
  lemma PaddingExactly(em: seq<Byte>)
    ensures Message(em) == RfcMessage(em) <==> !ShortPadding(em)
  {
    if i :| 2 <= i < 10 && i < |em| && em[i] == 0 {
      if em[0] == 0 && em[1] == 2 {
        ZeroIsFound(em[2..], i - 2);
      }
    }
  }

  /** No encoded message of fewer than eleven bytes has a long enough padding. */
  lemma ShortMessages(em: seq<Byte>)
    requires |em| < 11
    ensures RfcMessage(em) == Null
  {
    if RfcMessage(em).Answer? {
      RfcExactly(em, RfcMessage(em).bytes);
    }
  }

  lemma OpenedLength(n: nat, d: nat, k: nat, message: seq<Byte>)
    requires 0 < n < Power256(k) && k > 0
    ensures |ToBytes(PowMod(BigEndian(message), d, n), k)| == k
  {
    hide ToBytes, BigEndian, PowMod;
    PowModFits(BigEndian(message), d, n);
    Power256Grows(1, k);
    assert Power256(1) == 256 * Power256(0) == 256;
    FittingBytes(PowMod(BigEndian(message), d, n), k);
  }

  /** Decryption agrees with the section if and only if what the ciphertext opens to has no
      short padding, and, when the ciphertext is not below the modulus, is no message. */
  lemma DecryptsExactly(n: nat, d: nat, k: nat, message: seq<Byte>)
    requires 0 < n < Power256(k) && k > 0
    ensures var em := ToBytes(PowMod(BigEndian(message), d, n), k);
            Decrypted(n, d, k, message) == Returned(RfcDecrypted(n, d, k, message))
            <==> |message| != k || (if BigEndian(message) < n then !ShortPadding(em) else Message(em) == Null)
  {
    hide Message, RfcMessage, ShortPadding, PowMod, ToBytes, BigEndian, Power256;
    var em := ToBytes(PowMod(BigEndian(message), d, n), k);
    OpenedLength(n, d, k, message);
    PaddingExactly(em);
    if k < 11 {
      ShortMessages(em);
    }
  }

  lemma EmptyPadding(message: seq<Byte>)
    ensures Message([0, 2, 0] + message) == Answer(message) && RfcMessage([0, 2, 0] + message) == Null
  {
    assert ([0, 2, 0] + message)[2..] == [] + [0] + message;
    FirstZero([], message);
    assert ([0, 2, 0] + message)[2] == 0;
  }

  /** Encrypted without any padding, every message of three bytes less than the key is opened,
      where the section demands an error. */
  lemma ShortPaddingAccepted(nBytes: seq<Byte>, e: nat, d: nat, message: seq<Byte>)
    requires nBytes != [] && nBytes[0] != 0 && KeyPair(BigEndian(nBytes), e, d) && |message| + 3 == |nBytes|
    ensures var n, k := BigEndian(nBytes), |nBytes|;
            var c := ToBytes(PowMod(BigEndian([0, 2, 0] + message), e, n), k);
            n > 0 && Decrypted(n, d, k, c) == Returned(Answer(message)) && RfcDecrypted(n, d, k, c) == Null
  {
    var n, k, em := BigEndian(nBytes), |nBytes|, [0, 2, 0] + message;
    BareBelow(nBytes, em);
    PowersUndo(n, e, d, BigEndian(em));
    FitsModulus(BigEndian(em), e, nBytes, k);
    FittingBytes(PowMod(BigEndian(em), e, n), k);
    BytesBack(em);
    EmptyPadding(message);
    hide Message, RfcMessage, PowMod, ToBytes, BigEndian, Power256, KeyPair;
  }

  lemma BareBelow(nBytes: seq<Byte>, em: seq<Byte>)
    requires |nBytes| >= 3 && nBytes[0] != 0 && |em| == |nBytes| && em[0] == 0
    ensures BigEndian(em) < BigEndian(nBytes) && BigEndian(nBytes) >= 2
  {
    LeadingByte(nBytes);
    LeadingByte(em);
    Power256Grows(1, |nBytes| - 1);
    assert Power256(1) == 256 * Power256(0) == 256;
  }

  lemma SamePower(n: nat, d: nat, x: nat)
    requires n > 0
    ensures PowMod(x + n, d, n) == PowMod(x, d, n)
  {
    ModPower(x + n, d, n);
    ModPower(x, d, n);
    SameRemainder(x, n);
  }

  lemma SameRemainder(x: nat, n: nat)
    requires n > 0
    ensures (x + n) % n == x % n
  {
    Divide(x, n);
    MulStep(x / n, n);
    DivideUnique(x + n, x / n + 1, n);
  }

  /** A ciphertext is opened like the one that is larger by the modulus, which is not below
      it and an error in the section. */
  lemma LargeCiphertextOpened(n: nat, d: nat, k: nat, c: nat)
    requires n > 0 && k > 0 && c + n < Power256(k)
    ensures Decrypted(n, d, k, ToBytes(c + n, k)) == Decrypted(n, d, k, ToBytes(c, k))
    ensures RfcDecrypted(n, d, k, ToBytes(c + n, k)) == Null
  {
    hide ToBytes, BigEndian, PowMod, Power256, Message, RfcMessage;
    FittingBytes(c + n, k);
    FittingBytes(c, k);
    SamePower(n, d, c);
  }
}
