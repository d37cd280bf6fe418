/** CMAC (section 2.4 of RFC 4493) over an abstract block cipher. */
module CMAC {
  import opened Bytes
  import opened ExclusiveOr
  import opened Subkeys

  /** What a key does to a block. */
  type Cipher = Block -> Block

  const ZERO_BLOCK: Block := [0, 0, 0, 0, 0, 0, 0, 0, 0, 0, 0, 0, 0, 0, 0, 0]

  function Xors(a: seq<Byte>, b: seq<Byte>): (r: seq<Byte>)
    requires |a| == |b|
    ensures |r| == |a|
  {
    seq(|a|, i requires 0 <= i < |a| => XorByte(a[i], b[i]))
  }

  // ----- chaining -----------------------------------------------------------------------------

  /** The state after chaining through whole blocks. */
  function Chain(cipher: Cipher, state: Block, data: seq<Byte>): (r: Block)
    decreases |data|
  {
    if |data| < 16 then state else Chain(cipher, cipher(Xors(state, data[..16])), data[16..])
  }

  /** Encryption in CBC mode, block by block. */
  function Cbc(cipher: Cipher, state: Block, data: seq<Byte>): (r: seq<Byte>)
    ensures |r| == |data| / 16 * 16
    decreases |data|
  {
    if |data| < 16 then []
    else
      var next := cipher(Xors(state, data[..16]));
      next + Cbc(cipher, next, data[16..])
  }

  lemma {:induction false} ChainOver(cipher: Cipher, state: Block, a: seq<Byte>, b: seq<Byte>)
    requires |a| % 16 == 0
    ensures Chain(cipher, state, a + b) == Chain(cipher, Chain(cipher, state, a), b)
    decreases |a|
  {
    if a == [] {
      assert a + b == b;
    } else {
      var next := cipher(Xors(state, a[..16]));
      assert (a + b)[..16] == a[..16] && (a + b)[16..] == a[16..] + b;
      ChainOver(cipher, next, a[16..], b);
      hide Xors;
    }
  }

  /** The last block but one. */
  predicate EndsIn(r: seq<Byte>, block: Block) {
    |r| >= 32 && r[|r| - 32..|r| - 16] == block
  }

  lemma EndsBehind(first: seq<Byte>, r: seq<Byte>, block: Block)
    requires EndsIn(r, block)
    ensures EndsIn(first + r, block)
  {
    assert (first + r)[|first| + |r| - 32..|first| + |r| - 16] == r[|r| - 32..|r| - 16];
  }

  lemma CbcTurn(cipher: Cipher, state: Block, first: Block, rest: seq<Byte>)
    ensures var next := cipher(Xors(state, first));
            && Cbc(cipher, state, first + rest) == next + Cbc(cipher, next, rest)
            && Chain(cipher, state, first + rest) == Chain(cipher, next, rest)
  {
    assert (first + rest)[..16] == first && (first + rest)[16..] == rest;
    hide Xors;
  }

  lemma OnlyPadding(cipher: Cipher, first: Block, state: Block, padding: Block)
    ensures EndsIn(first + Cbc(cipher, state, padding), first) && Chain(cipher, first, []) == first
  {
    hide Xors, EndsIn;
    CbcTurn(cipher, state, padding, []);
    assert padding + [] == padding;
    var last := cipher(Xors(state, padding));
    assert Cbc(cipher, last, []) == [];
    LastOfTwo(first, last);
    assert last + [] == last;
  }

  lemma LastOfTwo(first: Block, last: Block)
    ensures EndsIn(first + last, first)
  {
    assert (first + last)[0..16] == first;
  }

  /** With a block of padding behind the data, the last block but one is the state after the
      data. */
  lemma {:induction false} LastButOne(cipher: Cipher, state: Block, data: seq<Byte>, padding: Block)
    requires |data| % 16 == 0 && |data| >= 16
    ensures EndsIn(Cbc(cipher, state, data + padding), Chain(cipher, state, data))
    decreases |data|
  {
    hide Xors, EndsIn, Cbc, Chain;
    var first, rest := data[..16], data[16..];
    assert data == first + rest && data + padding == first + (rest + padding);
    var next := cipher(Xors(state, first));
    CbcTurn(cipher, state, first, rest + padding);
    CbcTurn(cipher, state, first, rest);
    if |data| == 16 {
      assert rest == [] && rest + padding == padding;
      OnlyPadding(cipher, next, next, padding);
    } else {
      LastButOne(cipher, next, rest, padding);
      EndsBehind(next, Cbc(cipher, next, rest + padding), Chain(cipher, next, rest));
    }
  }

  // ----- the definition of the standard -----------------------------------------------------------

  /** The number of blocks; an empty message has one. */
  function Blocks(message: seq<Byte>): (n: nat)
    ensures n >= 1 && (n - 1) * 16 <= |message| <= n * 16
  {
    if message == [] then 1 else (|message| + 15) / 16
  }

  /** A last block that is not full is filled with a one bit and zeros. */
  function Filled(last: seq<Byte>): Block
    requires |last| < 16
  {
    last + [0x80] + seq(15 - |last|, _ => 0)
  }

  /** The last block, with the subkey that its length asks for. */
  function LastBlock(last: seq<Byte>, k1: Block, k2: Block): Block
    requires |last| <= 16
  {
    if |last| == 16 then Xors(last, k1) else Xors(Filled(last), k2)
  }

  function Cmac(cipher: Cipher, k1: Block, k2: Block, message: seq<Byte>): Block {
    var whole := (Blocks(message) - 1) * 16;
    cipher(Xors(Chain(cipher, ZERO_BLOCK, message[..whole]), LastBlock(message[whole..], k1, k2)))
  }

  /** Chaining through the whole blocks and then the last one. */
  lemma ChainsToCmac(cipher: Cipher, k1: Block, k2: Block, message: seq<Byte>)
    ensures var whole := (Blocks(message) - 1) * 16;
            Chain(cipher, ZERO_BLOCK, message[..whole] + LastBlock(message[whole..], k1, k2))
            == Cmac(cipher, k1, k2, message)
  {
    var whole := (Blocks(message) - 1) * 16;
    var last := LastBlock(message[whole..], k1, k2);
    ChainOver(cipher, ZERO_BLOCK, message[..whole], last);
    var state := Chain(cipher, ZERO_BLOCK, message[..whole]);
    assert last[..16] == last && last[16..] == [];
    hide LastBlock, Xors;
    assert Chain(cipher, state, last) == Chain(cipher, cipher(Xors(state, last)), []);
  }
}
