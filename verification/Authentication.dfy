/** What a tag of the EAX mode depends on (pond-sec/app/static/novnc/core/crypto/aes.js): each
    of the nonce, the additional data and the ciphertext, through codes that a change within
    one block always changes. */
module Authentication {
  import opened Bytes
  import opened CMAC
  import opened EAX
  import opened ExclusiveOr
  import opened Subkeys

  // ----- cancelling ---------------------------------------------------------------------------

  lemma XorByteCancels(a: Byte, b: Byte, c: Byte)
    requires XorByte(a, c) == XorByte(b, c) || XorByte(c, a) == XorByte(c, b)
    ensures a == b
  {
    hide Xor;
    XorCommutes(a, c);
    XorCommutes(b, c);
    XorTwice(a, c);
    XorTwice(b, c);
  }

  /** Exclusive or with the same bytes, from either side, keeps what differs apart. */
  lemma XorsCancel(a: seq<Byte>, b: seq<Byte>, c: seq<Byte>)
    requires |a| == |b| == |c|
    ensures Xors(a, c) == Xors(b, c) <==> a == b
    ensures Xors(c, a) == Xors(c, b) <==> a == b
  {
    hide XorByte;
    if Xors(a, c) == Xors(b, c) || Xors(c, a) == Xors(c, b) {
      forall i | 0 <= i < |a| ensures a[i] == b[i] {
        if Xors(a, c) == Xors(b, c) {
          assert Xors(a, c)[i] == XorByte(a[i], c[i]) && Xors(b, c)[i] == XorByte(b[i], c[i]);
        } else {
          assert Xors(c, a)[i] == XorByte(c[i], a[i]) && Xors(c, b)[i] == XorByte(c[i], b[i]);
        }
        XorByteCancels(a[i], b[i], c[i]);
      }
    }
  }

  // ----- the tag ------------------------------------------------------------------------------

  /** The block in front of each of the three codes is the number 0, 1 or 2. */
  lemma {:induction false} PrefixNumber(i: Byte)
    ensures BigEndian(Prefix(i)) == i
  {
    BigEndianPush(seq(15, _ => 0), i);
    NothingCounts(15);
  }

  lemma {:induction false} NothingCounts(n: nat)
    ensures BigEndian(seq(n, _ => 0)) == 0
  {
    if n > 0 {
      NothingCounts(n - 1);
      assert seq(n, _ => 0)[..n - 1] == seq(n - 1, _ => 0);
    }
  }

  /** With two of the three parts fixed, the tag tells the code of the third. */
  lemma TagTells(key: Key, ad: seq<Byte>, ad': seq<Byte>, nonce: seq<Byte>, nonce': seq<Byte>, e: seq<Byte>,
                 e': seq<Byte>)
    ensures Tag(key, ad, nonce, e) == Tag(key, ad', nonce, e) <==> Omac(key, 1, ad) == Omac(key, 1, ad')
    ensures Tag(key, ad, nonce, e) == Tag(key, ad, nonce', e) <==> Omac(key, 0, nonce) == Omac(key, 0, nonce')
    ensures Tag(key, ad, nonce, e) == Tag(key, ad, nonce, e') <==> Omac(key, 2, e) == Omac(key, 2, e')
  {
    hide Omac, Xors;
    var a, a' := Omac(key, 1, ad), Omac(key, 1, ad');
    var n, n' := Omac(key, 0, nonce), Omac(key, 0, nonce');
    var c, c' := Omac(key, 2, e), Omac(key, 2, e');
    XorsCancel(a, a', n);
    XorsCancel(n, n', a);
    XorsCancel(Xors(n, a), Xors(n, a'), c);
    XorsCancel(Xors(n, a), Xors(n', a), c);
    XorsCancel(c, c', Xors(n, a));
  }

  /** Byte `i` of the ciphertext is byte `i` of the message under byte `i` of the key stream
      that starts from the code of the nonce. */
  lemma EncryptedAt(key: Key, ad: seq<Byte>, nonce: seq<Byte>, message: seq<Byte>, i: nat)
    requires i < |message|
    ensures Encrypted(key, ad, nonce, message)[i] == XorByte(message[i], key.stream(Omac(key, 0, nonce), i))
  {
    hide Omac, Tag, XorByte;
    StreamAt(key, Omac(key, 0, nonce), |message|, i);
  }

  lemma {:induction false} StreamAt(key: Key, counter: Block, n: nat, i: nat)
    requires i < n
    ensures KeyStream(key, counter, n)[i] == key.stream(counter, i)
    decreases n
  {
    if i < n - 1 {
      StreamAt(key, counter, n - 1, i);
    }
  }

  /** What encryption makes, taken apart again. */
  lemma Parts(key: Key, ad: seq<Byte>, nonce: seq<Byte>, message: seq<Byte>, tag: Block)
    ensures var e := Ctr(key, Omac(key, 0, nonce), message);
            && Slice(e + tag, 0, |e + tag| - 16) == e && Slice(e + tag, |e + tag| - 16, |e + tag|) == tag
  {
    hide Ctr, Omac, Tag;
    var e := Ctr(key, Omac(key, 0, nonce), message);
    TagPart(e + tag);
    assert (e + tag)[..|e|] == e && (e + tag)[|e|..] == tag;
  }

  /** A sealed message opens under other additional data if and only if they have the same
      code. */
  lemma OtherDataRefused(key: Key, ad: seq<Byte>, other: seq<Byte>, nonce: seq<Byte>, message: seq<Byte>)
    ensures Decrypted(key, other, nonce, Encrypted(key, ad, nonce, message)) == Answer(message)
       <==> Omac(key, 1, other) == Omac(key, 1, ad)
    ensures Decrypted(key, other, nonce, Encrypted(key, ad, nonce, message)).Answer?
       <==> Omac(key, 1, other) == Omac(key, 1, ad)
  {
    hide Ctr, Tag, Omac, Slice;
    var e := Ctr(key, Omac(key, 0, nonce), message);
    Parts(key, ad, nonce, message, Tag(key, ad, nonce, e));
    TagTells(key, ad, other, nonce, nonce, e, e);
    CtrTwice(key, Omac(key, 0, nonce), message);
  }

  /** It opens under another nonce if and only if that has the same code. */
  lemma OtherNonceRefused(key: Key, ad: seq<Byte>, nonce: seq<Byte>, other: seq<Byte>, message: seq<Byte>)
    ensures Decrypted(key, ad, other, Encrypted(key, ad, nonce, message)) == Answer(message)
       <==> Omac(key, 0, other) == Omac(key, 0, nonce)
    ensures Decrypted(key, ad, other, Encrypted(key, ad, nonce, message)).Answer?
       <==> Omac(key, 0, other) == Omac(key, 0, nonce)
  {
    hide Ctr, Tag, Omac, Slice;
    var e := Ctr(key, Omac(key, 0, nonce), message);
    Parts(key, ad, nonce, message, Tag(key, ad, nonce, e));
    TagTells(key, ad, ad, nonce, other, e, e);
    CtrTwice(key, Omac(key, 0, nonce), message);
  }

  /** With the ciphertext replaced in front of its tag, something opens if and only if the new
      ciphertext has the same code. */
  lemma OtherTextRefused(key: Key, ad: seq<Byte>, nonce: seq<Byte>, message: seq<Byte>, other: seq<Byte>)
    ensures var e := Ctr(key, Omac(key, 0, nonce), message);
            Decrypted(key, ad, nonce, other + Encrypted(key, ad, nonce, message)[|message|..]).Answer?
            <==> Omac(key, 2, other) == Omac(key, 2, e)
  {
    hide Ctr, Tag, Omac, Slice;
    var e := Ctr(key, Omac(key, 0, nonce), message);
    var tag := Tag(key, ad, nonce, e);
    assert Encrypted(key, ad, nonce, message)[|message|..] == tag;
    TagPart(other + tag);
    assert (other + tag)[..|other|] == other && (other + tag)[|other|..] == tag;
    TagTells(key, ad, ad, nonce, nonce, e, other);
  }

  // ----- the codes -------------------------------------------------------------------------------

  /** A cipher that maps no two blocks to the same one. */
  ghost predicate Permutes(cipher: Cipher) {
    forall a: Block, b: Block :: cipher(a) == cipher(b) ==> a == b
  }

  lemma StepTells(cipher: Cipher, s: Block, t: Block, a: Block, b: Block)
    requires Permutes(cipher)
    ensures s == t && a != b ==> cipher(Xors(s, a)) != cipher(Xors(t, b))
    ensures s != t && a == b ==> cipher(Xors(s, a)) != cipher(Xors(t, b))
  {
    hide Xors;
    XorsCancel(s, t, a);
    XorsCancel(a, b, s);
  }

  /** Different states stay different while the same blocks follow. */
  lemma {:induction false} ChainTells(cipher: Cipher, s: Block, t: Block, data: seq<Byte>)
    requires Permutes(cipher) && s != t
    ensures Chain(cipher, s, data) != Chain(cipher, t, data)
    decreases |data|
  {
    hide Permutes, Xors;
    if |data| >= 16 {
      StepTells(cipher, s, t, data[..16], data[..16]);
      ChainTells(cipher, cipher(Xors(s, data[..16])), cipher(Xors(t, data[..16])), data[16..]);
    }
  }

  lemma ChainOne(cipher: Cipher, s: Block, b: Block, rest: seq<Byte>)
    ensures Chain(cipher, s, b + rest) == Chain(cipher, cipher(Xors(s, b)), rest)
  {
    hide Xors;
    CbcTurn(cipher, s, b, rest);
  }

  /** One block changed, in front of the last one. */
  lemma ChangedInside(cipher: Cipher, s: Block, front: seq<Byte>, a: Block, b: Block, rest: seq<Byte>)
    requires Permutes(cipher) && |front| % 16 == 0 && a != b
    ensures Chain(cipher, s, front + a + rest) != Chain(cipher, s, front + b + rest)
  {
    hide Permutes, Xors, Chain;
    assert front + a + rest == front + (a + rest) && front + b + rest == front + (b + rest);
    ChainOver(cipher, s, front, a + rest);
    ChainOver(cipher, s, front, b + rest);
    var t := Chain(cipher, s, front);
    ChainOne(cipher, t, a, rest);
    ChainOne(cipher, t, b, rest);
    StepTells(cipher, t, t, a, b);
    ChainTells(cipher, cipher(Xors(t, a)), cipher(Xors(t, b)), rest);
  }

  lemma FilledApart(a: seq<Byte>, b: seq<Byte>)
    requires |a| < |b| < 16
    ensures Filled(a) != Filled(b)
  {
    assert Filled(a)[|b|] == 0 && Filled(b)[|b|] == 0x80;
  }

  /** The one bit shows where a last block ends that is not full. */
  lemma FilledTells(a: seq<Byte>, b: seq<Byte>)
    requires |a| < 16 && |b| < 16
    ensures Filled(a) == Filled(b) <==> a == b
  {
    if |a| < |b| {
      FilledApart(a, b);
    } else if |b| < |a| {
      FilledApart(b, a);
    } else {
      assert a == Filled(a)[..|a|] && b == Filled(b)[..|b|];
    }
  }

  lemma LastTells(a: seq<Byte>, b: seq<Byte>, k1: Block, k2: Block)
    requires |a| <= 16 && |b| <= 16 && (|a| == 16 <==> |b| == 16) && a != b
    ensures LastBlock(a, k1, k2) != LastBlock(b, k1, k2)
  {
    hide Xors, Filled;
    if |a| == 16 {
      XorsCancel(a, b, k1);
    } else {
      FilledTells(a, b);
      XorsCancel(Filled(a), Filled(b), k2);
    }
  }

  /** The whole blocks before the last one. */
  function Whole(message: seq<Byte>): (n: nat)
    ensures n % 16 == 0 && n <= |message| <= n + 16
  {
    (Blocks(message) - 1) * 16
  }

  lemma WholeOf(front: seq<Byte>, last: seq<Byte>)
    requires |front| % 16 == 0 && |last| <= 16 && (front != [] ==> last != [])
    ensures Whole(front + last) == |front| && (front + last)[..|front|] == front && (front + last)[|front|..] == last
  {
  }

  /** Two messages with the same blocks but for the last one have different codes, when both
      last blocks are full or neither is. */
  lemma LastBlockTells(cipher: Cipher, k1: Block, k2: Block, front: seq<Byte>, a: seq<Byte>, b: seq<Byte>)
    requires Permutes(cipher) && |front| % 16 == 0 && a != b && (front != [] ==> a != [] && b != [])
    requires |a| <= 16 && |b| <= 16 && (|a| == 16 <==> |b| == 16)
    ensures Cmac(cipher, k1, k2, front + a) != Cmac(cipher, k1, k2, front + b)
  {
    hide Permutes, Xors, Chain, LastBlock, Blocks;
    WholeOf(front, a);
    WholeOf(front, b);
    var s := Chain(cipher, ZERO_BLOCK, front);
    LastTells(a, b, k1, k2);
    StepTells(cipher, s, s, LastBlock(a, k1, k2), LastBlock(b, k1, k2));
  }

  /** A change within one of the earlier blocks changes the code as well. */
  lemma InnerBlockTells(cipher: Cipher, k1: Block, k2: Block, front: seq<Byte>, a: Block, b: Block, rest: seq<Byte>,
                        last: seq<Byte>)
    requires Permutes(cipher) && |front| % 16 == 0 && |rest| % 16 == 0 && 1 <= |last| <= 16 && a != b
    ensures Cmac(cipher, k1, k2, front + a + rest + last) != Cmac(cipher, k1, k2, front + b + rest + last)
  {
    hide Permutes, Xors, Chain, LastBlock, Blocks;
    WholeOf(front + a + rest, last);
    WholeOf(front + b + rest, last);
    ChangedInside(cipher, ZERO_BLOCK, front, a, b, rest);
    StepTells(cipher, Chain(cipher, ZERO_BLOCK, front + a + rest), Chain(cipher, ZERO_BLOCK, front + b + rest),
              LastBlock(last, k1, k2), LastBlock(last, k1, k2));
  }

  /** A one that doubling shifts out comes back as the polynomial of RFC 4493. */
  lemma TopComesBack(l: nat)
    requires 2 * l == Power256(16)
    ensures Dbl(l) == 0x87
  {
    XorNothing(0x87);
    XorCommutes(0x87, 0);
  }

  lemma ZeroXor(b: Block)
    ensures Xors(ZERO_BLOCK, b) == b
  {
    forall i | 0 <= i < 16 ensures Xors(ZERO_BLOCK, b)[i] == b[i] {
      XorNothing(b[i]);
      XorCommutes(b[i], 0);
    }
  }

  /** A single full block takes the first subkey, an empty message the second one, behind its
      one bit. */
  lemma ShortestCodes(cipher: Cipher, k1: Block, k2: Block, b: Block)
    ensures Cmac(cipher, k1, k2, b) == cipher(Xors(b, k1))
    ensures Cmac(cipher, k1, k2, [])
         == cipher(Xors([0x80, 0, 0, 0, 0, 0, 0, 0, 0, 0, 0, 0, 0, 0, 0, 0], k2))
  {
    hide Xors;
    assert Filled([]) == [0x80, 0, 0, 0, 0, 0, 0, 0, 0, 0, 0, 0, 0, 0, 0, 0];
    ZeroXor(Xors(b, k1));
    ZeroXor(Xors(Filled([]), k2));
    assert b[..0] == [] && b[0..] == b;
  }

  /** Hence, under a cipher that is a permutation, a header of two bytes opens no other. */
  lemma HeadersTold(key: Key, ad: seq<Byte>, other: seq<Byte>, nonce: seq<Byte>, message: seq<Byte>)
    requires Permutes(key.cipher) && ad != other && 1 <= |ad| < 16 && 1 <= |other| < 16
    ensures Decrypted(key, other, nonce, Encrypted(key, ad, nonce, message)) == Null
  {
    hide Permutes, Decrypted, Encrypted, Cmac, SubkeyOne, SubkeyTwo, Prefix;
    OtherDataRefused(key, ad, other, nonce, message);
    LastBlockTells(key.cipher, SubkeyOne(key), SubkeyTwo(key), Prefix(1), other, ad);
  }
}
