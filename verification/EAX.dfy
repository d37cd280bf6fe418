/** The EAX mode (pond-sec/app/static/novnc/core/crypto/aes.js): subkeys, message
    authentication codes, encryption and decryption, over an abstract block cipher. */
module EAX {
  import opened Bytes
  import opened CMAC
  import opened ExclusiveOr
  import opened Subkeys

  /** What a key determines: its block cipher, and byte `i` of the key stream that counter
      mode makes from a first counter. */
  datatype Key = Key(cipher: Cipher, stream: (Block, nat) -> Byte)

  const PADDING: Block := [16, 16, 16, 16, 16, 16, 16, 16, 16, 16, 16, 16, 16, 16, 16, 16]

  /** Encryption in CBC mode from a zero vector, with its block of padding. */
  function WebCbc(cipher: Cipher, data: seq<Byte>): (r: seq<Byte>)
    requires |data| % 16 == 0
    ensures |r| == |data| + 16
  {
    Cbc(cipher, ZERO_BLOCK, data + PADDING)
  }

  /** Counter mode: its own inverse. */
  function Ctr(key: Key, counter: Block, data: seq<Byte>): (r: seq<Byte>)
    ensures |r| == |data|
  {
    Xors(data, KeyStream(key, counter, |data|))
  }

  function KeyStream(key: Key, counter: Block, n: nat): (r: seq<Byte>)
    ensures |r| == n
  {
    if n == 0 then [] else KeyStream(key, counter, n - 1) + [key.stream(counter, n - 1)]
  }

  // ----- what the mode computes ------------------------------------------------------------------

  lemma XorFits(x: nat, c: nat)
    requires x < Power256(16) && c < Power256(16)
    ensures Xor(x, c) < Power256(16)
  {
    hide Xor, Power256;
    PowersAgree(16);
    XorParts(0, 0, x, c, 128);
  }

  lemma DblFits(n: nat)
    requires n < Power256(16)
    ensures Dbl(n) < Power256(16)
  {
    if 2 * n >= Power256(16) {
      assert Power256(1) == 256 * Power256(0) == 256;
      Power256Grows(1, 16);
      XorFits(2 * n - Power256(16), 0x87);
    }
    hide Xor, Power256;
  }

  /** The double of a block. */
  function DoubledBlock(l: Block): Block {
    BigEndianBounds(l);
    DblFits(BigEndian(l));
    InBytes(Dbl(BigEndian(l)), 16)
  }

  function SubkeyOne(key: Key): Block {
    DoubledBlock(key.cipher(ZERO_BLOCK))
  }

  function SubkeyTwo(key: Key): Block {
    DoubledBlock(SubkeyOne(key))
  }

  /** Fifteen zeros and the number of the prefix. */
  function Prefix(i: Byte): Block {
    seq(15, _ => 0) + [i]
  }

  /** The code of a prefix block and data behind it. */
  function Omac(key: Key, i: Byte, data: seq<Byte>): Block {
    Cmac(key.cipher, SubkeyOne(key), SubkeyTwo(key), Prefix(i) + data)
  }

  function Tag(key: Key, ad: seq<Byte>, nonce: seq<Byte>, encrypted: seq<Byte>): Block {
    Xors(Omac(key, 2, encrypted), Xors(Omac(key, 0, nonce), Omac(key, 1, ad)))
  }

  function Encrypted(key: Key, ad: seq<Byte>, nonce: seq<Byte>, message: seq<Byte>): (r: seq<Byte>)
    ensures |r| == |message| + 16
  {
    var encrypted := Ctr(key, Omac(key, 0, nonce), message);
    encrypted + Tag(key, ad, nonce, encrypted)
  }

  /** An index of `slice`: counted from the end when negative. */
  function SliceIndex(i: int, length: nat): (r: nat)
    ensures r <= length
  {
    if i < 0 then (if length + i < 0 then 0 else length + i) else if i > length then length else i
  }

  function Slice(data: seq<Byte>, from: int, to: int): seq<Byte> {
    var i, j := SliceIndex(from, |data|), SliceIndex(to, |data|);
    if i <= j then data[i..j] else []
  }

  function Decrypted(key: Key, ad: seq<Byte>, nonce: seq<Byte>, data: seq<Byte>): Answer {
    var encrypted := Slice(data, 0, |data| - 16);
    if Slice(data, |data| - 16, |data|) != Tag(key, ad, nonce, encrypted) then Null
    else Answer(Ctr(key, Omac(key, 0, nonce), encrypted))
  }

  // ----- decryption undoes encryption ---------------------------------------------------------------

  lemma CtrTwice(key: Key, counter: Block, data: seq<Byte>)
    ensures Ctr(key, counter, Ctr(key, counter, data)) == data
  {
    var stream := KeyStream(key, counter, |data|);
    forall i | 0 <= i < |data| ensures Xors(Xors(data, stream), stream)[i] == data[i] {
      XorTwice(data[i], stream[i]);
    }
  }

  /** Nothing shorter than a tag has the last sixteen bytes that a tag needs. */
  lemma TagPart(data: seq<Byte>)
    ensures if |data| < 16 then |Slice(data, |data| - 16, |data|)| < 16
            else && Slice(data, 0, |data| - 16) == data[..|data| - 16]
                 && Slice(data, |data| - 16, |data|) == data[|data| - 16..]
  {
  }

  /** Decryption gives a message exactly for what encryption makes of that message under the
      same nonce and additional data; everything else is refused. */
  lemma OpensExactlyTheSealed(key: Key, ad: seq<Byte>, nonce: seq<Byte>, data: seq<Byte>, message: seq<Byte>)
    ensures Decrypted(key, ad, nonce, data) == Answer(message) <==> data == Encrypted(key, ad, nonce, message)
  {
    hide Ctr, Tag, Omac, Slice;
    var counter := Omac(key, 0, nonce);
    TagPart(data);
    CtrTwice(key, counter, message);
    if |data| >= 16 {
      var encrypted := data[..|data| - 16];
      CtrTwice(key, counter, encrypted);
      assert data == encrypted + data[|data| - 16..];
      if data == Encrypted(key, ad, nonce, message) {
        assert encrypted == Ctr(key, counter, message);
      }
    }
  }

  // ----- the cipher object ---------------------------------------------------------------------------

  class AESEAXCipher {
    ghost const key: Key
    const cipher: Cipher
    const stream: (Block, nat) -> Byte
    var k1: array<Byte>
    var k2: array<Byte>

    constructor (cipher: Cipher, stream: (Block, nat) -> Byte)
      ensures key == Key(cipher, stream) && Valid() && fresh(k1) && fresh(k2)
    {
      this.cipher, this.stream, key := cipher, stream, Key(cipher, stream);
      new;
      InitCMAC();
    }

    ghost predicate Valid()
      reads this, k1, k2
    {
      key == Key(cipher, stream) && k1[..] == SubkeyOne(key) && k2[..] == SubkeyTwo(key)
    }

    method EncryptBlock(block: Block) returns (r: Block)
      ensures r == cipher(block)
    {
      FirstOfCbc(cipher, block);
      r := WebCbc(cipher, block)[..16];
    }

    /** Both subkeys in one pass: byte shifts of the encrypted zero block and carries from
        the table. */
    method InitCMAC()
      requires key == Key(cipher, stream)
      modifies this
      ensures Valid() && fresh(k1) && fresh(k2)
    {
      hide Lut, XorByte, Shifted, SubkeyOne, SubkeyTwo, AllShifted;
      var l := EncryptBlock(ZERO_BLOCK);
      var v: nat := l[0] / 64;
      var one, two, last := ShiftBoth(l);
      ghost var s1, s2 := one[..15] + [Shifted(last, 0, 2)], two[..15] + [Shifted(last, 0, 4)];
      two[14] := XorByte(two[14], v / 2);
      two[15] := XorByte(Shifted(last, 0, 4), Lut(v));
      one[15] := XorByte(Shifted(last, 0, 2), Lut(v / 2));
      assert one[..] == s1[..15] + [XorByte(s1[15], Lut(v / 2))];
      assert two[..] == s2[..14] + [XorByte(s2[14], v / 2)] + [XorByte(s2[15], Lut(v))];
      OneShift(key, l, s1, one[..]);
      TwoShifts(key, l, s2, two[..]);
      k1, k2 := one, two;
    }

    /** The loop over the first fifteen bytes; the last one is returned as it was. */
    method ShiftBoth(l: Block) returns (one: array<Byte>, two: array<Byte>, last: Byte)
      ensures fresh(one) && fresh(two) && one != two && one.Length == two.Length == 16 && last == l[15]
      ensures AllShifted(l, one[..15] + [Shifted(last, 0, 2)], 2) && AllShifted(l, two[..15] + [Shifted(last, 0, 4)], 4)
    {
      hide Shifted;
      one, two := new Byte[16](i requires 0 <= i < 16 => l[i]), new Byte[16](_ => 0);
      for i := 0 to 15
        invariant forall j :: 0 <= j < i ==>
                  one[j] == Shifted(l[j], l[j + 1], 2) && two[j] == Shifted(l[j], l[j + 1], 4)
        invariant forall j :: i <= j < 16 ==> one[j] == l[j]
      {
        // Uint8Array truncates; the two parts have no bits in common.
        two[i] := Shifted(one[i], one[i + 1], 4);
        one[i] := Shifted(one[i], one[i + 1], 2);
      }
      last := one[15];
    }

    /** The code of a prefix block and the data behind it. */
    method ComputeCMAC(data: seq<Byte>, prefixBlock: seq<Byte>) returns (mac: Answer)
      requires Valid()
      ensures mac == if |prefixBlock| != 16 then Null
                     else Answer(Cmac(cipher, SubkeyOne(key), SubkeyTwo(key), prefixBlock + data))
    {
      hide Cmac, SubkeyOne, SubkeyTwo, WebCbc, Keyed;
      if |prefixBlock| != 16 {
        return Null;
      }
      var cbcData := KeyedData(data, prefixBlock);
      CodeOfCbc(cipher, SubkeyOne(key), SubkeyTwo(key), prefixBlock + data, cbcData);
      var cbcEncrypted := WebCbc(cipher, cbcData);
      return Answer(cbcEncrypted[|cbcEncrypted| - 32..|cbcEncrypted| - 16]);
    }

    /** The code with prefix number `i`. */
    method PrefixedCMAC(data: seq<Byte>, i: Byte) returns (mac: Block)
      requires Valid()
      ensures mac == Omac(key, i, data)
    {
      hide Cmac, SubkeyOne, SubkeyTwo;
      var r := ComputeCMAC(data, Prefix(i));
      mac := r.bytes;
    }

    /** Three codes, added. */
    method Sum(mac: Block, nCMAC: Block, adCMAC: Block) returns (r: array<Byte>)
      ensures fresh(r) && r[..] == Xors(mac, Xors(nCMAC, adCMAC))
    {
      r := new Byte[16](i requires 0 <= i < 16 => mac[i]);
      for i := 0 to 16
        invariant forall j :: 0 <= j < i ==> r[j] == Xors(mac, Xors(nCMAC, adCMAC))[j]
        invariant forall j :: i <= j < 16 ==> r[j] == mac[j]
      {
        r[i] := XorByte(r[i], XorByte(nCMAC[i], adCMAC[i]));
      }
    }

    method Encrypt(ad: seq<Byte>, nonce: seq<Byte>, message: seq<Byte>) returns (res: seq<Byte>)
      requires Valid()
      ensures res == Encrypted(key, ad, nonce, message)
    {
      hide Omac, Ctr, Xors;
      var nCMAC := PrefixedCMAC(nonce, 0);
      var encrypted := Ctr(Key(cipher, stream), nCMAC, message);
      var adCMAC := PrefixedCMAC(ad, 1);
      var mac := PrefixedCMAC(encrypted, 2);
      var sum := Sum(mac, nCMAC, adCMAC);
      return encrypted + sum[..];
    }

    method Decrypt(ad: seq<Byte>, nonce: seq<Byte>, data: seq<Byte>) returns (res: Answer)
      requires Valid()
      ensures res == Decrypted(key, ad, nonce, data)
    {
      hide Omac, Ctr, Xors, Slice;
      var encrypted := Slice(data, 0, |data| - 16);
      var mac := Slice(data, |data| - 16, |data|);
      var nCMAC := PrefixedCMAC(nonce, 0);
      var adCMAC := PrefixedCMAC(ad, 1);
      var code := PrefixedCMAC(encrypted, 2);
      var computedMac := Sum(code, nCMAC, adCMAC);
      if computedMac.Length != |mac| {
        return Null;
      }
      for i := 0 to |mac|
        invariant forall j :: 0 <= j < i ==> computedMac[j] == mac[j]
      {
        if computedMac[i] != mac[i] {
          return Null;
        }
      }
      assert computedMac[..] == mac;
      return Answer(Ctr(Key(cipher, stream), nCMAC, encrypted));
    }

    /** What is encrypted: the blocks of the message, the last one with its subkey. */
    method KeyedData(data: seq<Byte>, prefixBlock: Block) returns (keyed: seq<Byte>)
      requires Valid()
      ensures Keyed(keyed, prefixBlock + data, SubkeyOne(key), SubkeyTwo(key))
    {
      hide SubkeyOne, SubkeyTwo, Laid, Keyed;
      var n := |data| / 16;
      var r := |data| - n * 16;
      var cbcData := LayOut(data, prefixBlock);
      if r == 0 {
        KeyWhole(cbcData, n, prefixBlock + data);
      } else {
        KeyFilled(cbcData, n, r, prefixBlock + data);
      }
      keyed := cbcData[..];
    }

    /** The last block is full. */
    method KeyWhole(cbcData: array<Byte>, n: nat, ghost message: seq<Byte>)
      requires Valid() && cbcData != k1 && cbcData != k2 && Laid(cbcData[..], message) && |message| == n * 16 + 16
      modifies cbcData
      ensures Keyed(cbcData[..], message, SubkeyOne(key), SubkeyTwo(key))
    {
      hide SubkeyOne, SubkeyTwo, Laid, Ready, LastBlock, Blocks, Xors, Keyed;
      ghost var ready := cbcData[..];
      WholeLast(ready, message, n);
      XorInto(cbcData, n * 16, k1[..]);
      KeyedLast(ready, cbcData[..], message, n * 16, SubkeyOne(key), SubkeyTwo(key), k1[..]);
    }

    /** The last block has `r` bytes. */
    method KeyFilled(cbcData: array<Byte>, n: nat, r: nat, ghost message: seq<Byte>)
      requires Valid() && cbcData != k1 && cbcData != k2 && Laid(cbcData[..], message)
      requires |message| == (n + 1) * 16 + r && 0 < r < 16
      modifies cbcData
      ensures Keyed(cbcData[..], message, SubkeyOne(key), SubkeyTwo(key))
    {
      hide SubkeyOne, SubkeyTwo, Laid, Ready, LastBlock, Blocks, Xors, Keyed;
      ghost var laid := cbcData[..];
      FilledLast(laid, message, n, r);
      cbcData[(n + 1) * 16 + r] := 0x80;
      ghost var ready := cbcData[..];
      assert ready == laid[|message| := 0x80];
      XorInto(cbcData, (n + 1) * 16, k2[..]);
      KeyedLast(ready, cbcData[..], message, (n + 1) * 16, SubkeyOne(key), SubkeyTwo(key), k2[..]);
    }

    /** The prefix block and the data, with room up to the end of the last block. */
    method LayOut(data: seq<Byte>, prefixBlock: Block) returns (cbcData: array<Byte>)
      ensures fresh(cbcData) && Laid(cbcData[..], prefixBlock + data) && cbcData.Length == (|data| + 15) / 16 * 16 + 16
    {
      var m := (|data| + 15) / 16;
      cbcData := new Byte[(m + 1) * 16](_ => 0);
      forall i | 0 <= i < 16 {
        cbcData[i] := prefixBlock[i];
      }
      forall i | 0 <= i < |data| {
        cbcData[16 + i] := data[i];
      }
      assert cbcData[..16 + |data|] == prefixBlock + data;
    }

    method XorInto(data: array<Byte>, offset: nat, k: Block)
      requires offset + 16 <= data.Length
      modifies data
      ensures data[..offset] == old(data[..offset]) && data[offset + 16..] == old(data[offset + 16..])
      ensures data[offset..offset + 16] == Xors(old(data[offset..offset + 16]), k)
    {
      ghost var before := data[..];
      for i := 0 to 16
        invariant forall j :: 0 <= j < data.Length && !(offset <= j < offset + i) ==> data[j] == before[j]
        invariant forall j :: 0 <= j < i ==> data[offset + j] == XorByte(before[offset + j], k[j])
      {
        data[offset + i] := XorByte(data[offset + i], k[i]);
      }
      assert data[..offset] == before[..offset] && data[offset + 16..] == before[offset + 16..];
      assert data[offset..offset + 16] == Xors(before[offset..offset + 16], k);
    }
  }

  /** `a` times `m`, as a byte, and the bits of `b` that move up. */
  function Shifted(a: Byte, b: Byte, m: nat): Byte
    requires m == 2 || m == 4
  {
    (a as int * m % 256) + b as int * m / 256
  }

  lemma FirstOfCbc(cipher: Cipher, block: Block)
    ensures WebCbc(cipher, block)[..16] == cipher(block)
  {
    CbcTurn(cipher, ZERO_BLOCK, block, PADDING);
    assert Xors(ZERO_BLOCK, block) == block by {
      forall i | 0 <= i < 16 ensures Xors(ZERO_BLOCK, block)[i] == block[i] {
        XorCommutes(0, block[i]);
        XorNothing(block[i]);
      }
    }
  }

  /** Block `s` with everything shifted by the bits of `m`. */
  ghost predicate AllShifted(l: Block, s: seq<Byte>, m: nat)
    requires m == 2 || m == 4
  {
    |s| == 16 && s[15] == Shifted(l[15], 0, m) && forall j :: 0 <= j < 15 ==> s[j] == Shifted(l[j], l[j + 1], m)
  }

  lemma ShiftedValue(l: Block, s: seq<Byte>, m: nat)
    requires (m == 2 || m == 4) && AllShifted(l, s, m)
    ensures BigEndian(s) == Low(m * BigEndian(l))
  {
    hide BigEndian, Power256;
    forall i | 0 <= i < 16 ensures s[i] == ShiftLeft(l, m, 0)[i] {
      ShiftAt(l, m, 0, i);
    }
    assert s == ShiftLeft(l, m, 0);
    ShiftValue(l, m, 0);
  }

  lemma InPlace(k: seq<Byte>, n: nat)
    requires |k| == 16 && BigEndian(k) == n
    ensures n < Power256(16) && k == InBytes(n, 16)
  {
    BigEndianBounds(k);
    InBytesValue(n, 16);
    SameNumber(k, InBytes(n, 16));
  }

  /** What the pass leaves in the first array is the first subkey. */
  lemma OneShift(key: Key, l: Block, s: seq<Byte>, one: seq<Byte>)
    requires l == key.cipher(ZERO_BLOCK) && AllShifted(l, s, 2)
    requires one == s[..15] + [XorByte(s[15], Lut(l[0] / 64 / 2))]
    ensures one == SubkeyOne(key)
  {
    hide AllShifted, XorByte, Low, Dbl, BigEndian, Power256, InBytes;
    ShiftedSize(l, s, 2);
    ShiftedValue(l, s, 2);
    XorLastByte(s, Lut(l[0] / 64 / 2));
    FirstKey(l);
    assert l[0] / 64 / 2 == l[0] / 128;
    InPlace(one, Dbl(BigEndian(l)));
  }

  lemma ShiftedSize(l: Block, s: seq<Byte>, m: nat)
    requires (m == 2 || m == 4) && AllShifted(l, s, m)
    ensures |s| == 16
  {
  }

  /** What the pass leaves in the second array is the second subkey. */
  lemma TwoShifts(key: Key, l: Block, s: seq<Byte>, two: seq<Byte>)
    requires l == key.cipher(ZERO_BLOCK) && AllShifted(l, s, 4)
    requires two == s[..14] + [XorByte(s[14], l[0] / 64 / 2)] + [XorByte(s[15], Lut(l[0] / 64))]
    ensures two == SubkeyTwo(key)
  {
    hide AllShifted, XorByte, Low, Dbl, BigEndian, Power256, InBytes;
    ShiftedSize(l, s, 4);
    ShiftedValue(l, s, 4);
    XorLastBytes(s, l[0] / 64 / 2, Lut(l[0] / 64));
    SecondKey(l);
    FirstIsDouble(key);
    InPlace(two, Dbl(Dbl(BigEndian(l))));
  }

  lemma FirstIsDouble(key: Key)
    ensures BigEndian(SubkeyOne(key)) == Dbl(BigEndian(key.cipher(ZERO_BLOCK)))
  {
    hide Dbl, BigEndian, Power256, InBytes;
    var l := key.cipher(ZERO_BLOCK);
    BigEndianBounds(l);
    DblFits(BigEndian(l));
    InBytesValue(Dbl(BigEndian(l)), 16);
  }

  // ----- the last block ------------------------------------------------------------------------------

  /** The message, and zeros up to the end of its last block. */
  predicate Laid(cbcData: seq<Byte>, message: seq<Byte>) {
    && |message| >= 16 && |cbcData| == Blocks(message) * 16
    && cbcData[..|message|] == message && forall i :: |message| <= i < |cbcData| ==> cbcData[i] == 0
  }

  /** The whole blocks of the message, and a last block to which the key of its length is
      to be added. */
  predicate Ready(cbcData: seq<Byte>, message: seq<Byte>, whole: nat) {
    && |cbcData| == whole + 16 && whole == (Blocks(message) - 1) * 16 <= |message|
    && cbcData[..whole] == message[..whole]
    && cbcData[whole..] == (if |message| - whole == 16 then message[whole..] else Filled(message[whole..]))
  }

  /** The whole blocks of the message, and its last block with a subkey. */
  ghost predicate Keyed(cbcData: seq<Byte>, message: seq<Byte>, k1: Block, k2: Block) {
    var whole := (Blocks(message) - 1) * 16;
    cbcData == message[..whole] + LastBlock(message[whole..], k1, k2)
  }

  lemma WholeLast(cbcData: seq<Byte>, message: seq<Byte>, n: nat)
    requires Laid(cbcData, message) && |message| == n * 16 + 16
    ensures Ready(cbcData, message, n * 16) && |cbcData| == n * 16 + 16
  {
    assert cbcData == message;
  }

  lemma FilledLast(cbcData: seq<Byte>, message: seq<Byte>, n: nat, r: nat)
    requires Laid(cbcData, message) && |message| == (n + 1) * 16 + r && 0 < r < 16
    ensures |message| < |cbcData| == (n + 1) * 16 + 16 && Ready(cbcData[|message| := 0x80], message, (n + 1) * 16)
  {
    var whole := (n + 1) * 16;
    assert Blocks(message) == n + 2;
    var filled := cbcData[|message| := 0x80];
    assert filled[..|message|] == message;
    assert filled[..whole] == message[..whole];
    assert filled[whole..] == Filled(message[whole..]);
  }

  lemma LastPart(s: seq<Byte>, whole: nat)
    requires |s| == whole + 16
    ensures s[whole..whole + 16] == s[whole..] && s == s[..whole] + s[whole..]
  {
  }

  lemma KeyedLast(before: seq<Byte>, after: seq<Byte>, message: seq<Byte>, whole: nat, k1: Block, k2: Block, k: Block)
    requires Ready(before, message, whole) && |after| == |before|
    requires after[..whole] == before[..whole] && after[whole..whole + 16] == Xors(before[whole..whole + 16], k)
    requires k == if |message| - whole == 16 then k1 else k2
    ensures Keyed(after, message, k1, k2)
  {
    hide Xors, Filled;
    LastPart(before, whole);
    LastPart(after, whole);
  }

  /** The code is the last block but one of the encrypted data. */
  lemma CodeOfCbc(cipher: Cipher, k1: Block, k2: Block, message: seq<Byte>, cbcData: seq<Byte>)
    requires Keyed(cbcData, message, k1, k2)
    ensures |cbcData| % 16 == 0 && |cbcData| >= 16
    ensures var r := WebCbc(cipher, cbcData);
            |r| >= 32 && r[|r| - 32..|r| - 16] == Cmac(cipher, k1, k2, message)
  {
    hide Cmac, Chain, Cbc, LastBlock;
    ChainsToCmac(cipher, k1, k2, message);
    LastButOne(cipher, ZERO_BLOCK, cbcData, PADDING);
  }
}
