/** The receive queue (pond-sec/app/static/novnc/core/websock.js): one growing array with a
    read and a write index, which behaves as a plain queue of bytes. */
module Websock {
  import opened Bytes
  import opened Resume

  const START_SIZE := 4 * 1024 * 1024
  const MAX_RQ_GROW_SIZE := 40 * 1024 * 1024

  /** `byte << k * 8` on signed 32-bit numbers. */
  function ShiftedLeft(b: Byte, k: nat): int
    requires k < 4
  {
    var value := b * Power256(k);
    if value >= 0x8000_0000 then value - 0x1_0000_0000 else value
  }

  class Queue {
    var rQ: array<Byte>
    var rQi: nat
    var rQlen: nat
    var rQbufferSize: nat

    ghost predicate Valid()
      reads this
    {
      rQi <= rQlen <= rQbufferSize == rQ.Length <= MAX_RQ_GROW_SIZE
    }

    /** The bytes that have arrived and not been read. */
    ghost function Unread(): (s: seq<Byte>)
      requires Valid()
      reads this, rQ
      ensures |s| == rQlen - rQi
    {
      rQ[rQi..rQlen]
    }

    constructor ()
      ensures Valid() && fresh(rQ) && Unread() == []
    {
      rQ := new Byte[START_SIZE](_ => 0);
      rQi, rQlen, rQbufferSize := 0, 0, START_SIZE;
    }

    // ----- reading ---------------------------------------------------------------------------

    method RQpeek8() returns (b: Byte)
      requires Valid() && rQi < rQlen
      ensures b == Unread()[0]
    {
      b := rQ[rQi];
    }

    method RQskipBytes(bytes: nat)
      requires Valid() && bytes <= rQlen - rQi
      modifies `rQi
      ensures Valid() && Unread() == old(Unread())[bytes..]
    {
      rQi := rQi + bytes;
    }

    /** `_rQshift`: the sum of signed shifts, read as unsigned, is the big-endian value. */
    method RQshift(bytes: nat) returns (value: nat)
      requires Valid() && 1 <= bytes <= 4 && bytes <= rQlen - rQi
      modifies `rQi
      ensures Valid() && Unread() == old(Unread())[bytes..]
      ensures value == BigEndian(old(Unread())[..bytes])
    {
      hide Power256, BigEndian, ShiftedLeft;
      ghost var taken := Unread()[..bytes];
      ghost var start := rQi;
      var res: int := 0;
      var byte: int := bytes - 1;
      ShiftStart(taken);
      while byte >= 0
        invariant -1 <= byte < bytes && rQi == start + (bytes - 1 - byte) && Valid()
        invariant Shifted(taken, bytes - 1 - byte, res)
        decreases byte
      {
        assert rQ[rQi] == taken[bytes - 1 - byte];
        ShiftStep(taken, bytes - 1 - byte, res);
        res := res + ShiftedLeft(rQ[rQi], byte as nat);
        rQi := rQi + 1;
        byte := byte - 1;
      }
      ShiftEnd(taken, res);
      value := res % 0x1_0000_0000;
    }

    method RQshift8() returns (value: Byte)
      requires Valid() && rQi < rQlen
      modifies `rQi
      ensures Valid() && Unread() == old(Unread())[1..] && value == old(Unread())[0]
    {
      var v := RQshift(1);
      ghost var taken := old(Unread())[..1];
      assert BigEndian(taken) == taken[0] by {
        assert taken[..0] == [];
      }
      value := v;
    }

    method RQshift16() returns (value: nat)
      requires Valid() && 2 <= rQlen - rQi
      modifies `rQi
      ensures Valid() && Unread() == old(Unread())[2..] && value == BigEndian(old(Unread())[..2])
    {
      value := RQshift(2);
    }

    method RQshift32() returns (value: nat)
      requires Valid() && 4 <= rQlen - rQi
      modifies `rQi
      ensures Valid() && Unread() == old(Unread())[4..] && value == BigEndian(old(Unread())[..4])
    {
      value := RQshift(4);
    }

    /** `rQshiftBytes` as a view: the bytes stay in place at `start`, before the read index. */
    method RQshiftView(len: nat) returns (start: nat)
      requires Valid() && len <= rQlen - rQi
      modifies `rQi
      ensures Valid() && Unread() == old(Unread())[len..] && start + len == rQi
      ensures rQ[start..start + len] == old(Unread())[..len]
    {
      ghost var unread := Unread();
      start := rQi;
      rQi := rQi + len;
      assert rQ[start..rQi] == unread[..len] && Unread() == unread[len..];
    }

    method RQshiftBytes(len: nat) returns (bytes: seq<Byte>)
      requires Valid() && len <= rQlen - rQi
      modifies `rQi
      ensures Valid() && Unread() == old(Unread())[len..] && bytes == old(Unread())[..len]
    {
      ghost var unread := Unread();
      rQi := rQi + len;
      bytes := rQ[rQi - len..rQi];
      assert bytes == unread[..len] && Unread() == unread[len..];
    }

    method RQpeekBytes(len: nat) returns (bytes: seq<Byte>)
      requires Valid() && len <= rQlen - rQi
      ensures bytes == Unread()[..len]
    {
      bytes := rQ[rQi..rQi + len];
    }

    /** `rQwait`: when `num` bytes are not there, the last `goback` bytes are unread again. */
    method RQwait(num: nat, goback: nat) returns (wait: bool)
      requires Valid() && goback <= rQi
      modifies `rQi
      ensures Valid() && (wait <==> |old(Unread())| < num)
      ensures rQi == if wait then old(rQi) - goback else old(rQi)
      ensures wait ==> Unread() == rQ[rQi..rQi + goback] + old(Unread())
      ensures !wait ==> Unread() == old(Unread())
    {
      ghost var unread := Unread();
      if rQlen - rQi < num {
        if goback > 0 {
          rQi := rQi - goback;
        }
        assert Unread() == rQ[rQi..rQi + goback] + unread;
        return true;
      }
      return false;
    }

    // ----- receiving --------------------------------------------------------------------------

    method MoveToFront(resize: bool)
      requires rQi <= rQlen <= rQ.Length && rQlen - rQi <= rQbufferSize <= MAX_RQ_GROW_SIZE
      requires !resize ==> rQbufferSize == rQ.Length
      modifies this, rQ
      ensures Valid() && Unread() == old(rQ[rQi..rQlen]) && rQi == 0 && rQbufferSize == old(rQbufferSize)
      ensures rQ == old(rQ) || fresh(rQ)
    {
      ghost var unread := rQ[rQi..rQlen];
      if resize {
        var larger := new Byte[rQbufferSize](_ => 0);
        CopyInto(larger, 0, rQ[rQi..rQlen]);
        rQ := larger;
      } else {
        CopyInto(rQ, 0, rQ[rQi..rQlen]);
      }
      rQlen := rQlen - rQi;
      rQi := 0;
      assert rQ[0..rQlen] == unread;
    }

    /** `_expandCompactRQ`: unread bytes move to the front, of a larger array if need be. It
        fails exactly when unread and coming bytes together exceed the largest size. */
    method ExpandCompactRQ(minFit: nat) returns (ok: bool)
      requires Valid()
      modifies this, rQ
      ensures ok <==> old(rQlen) - old(rQi) + minFit <= MAX_RQ_GROW_SIZE
      ensures ok ==> Valid() && Unread() == old(Unread()) && rQi == 0 && minFit <= rQbufferSize - rQlen
      ensures ok ==> rQ == old(rQ) || fresh(rQ)
      ensures !ok ==> rQ == old(rQ) && rQi == old(rQi) && rQlen == old(rQlen) && rQ[..] == old(rQ[..])
    {
      var requiredBufferSize := (rQlen - rQi + minFit) * 8;
      var resizeNeeded := rQbufferSize < requiredBufferSize;
      if resizeNeeded {
        rQbufferSize := if rQbufferSize * 2 >= requiredBufferSize then rQbufferSize * 2 else requiredBufferSize;
      }
      if rQbufferSize > MAX_RQ_GROW_SIZE {
        rQbufferSize := MAX_RQ_GROW_SIZE;
        if rQbufferSize - (rQlen - rQi) < minFit {
          return false;
        }
      }
      MoveToFront(resizeNeeded);
      return true;
    }

    /** `set` on a typed array. */
    static method CopyInto(target: array<Byte>, offset: nat, bytes: seq<Byte>)
      requires offset + |bytes| <= target.Length
      modifies target
      ensures target[offset..offset + |bytes|] == bytes
      ensures target[..offset] == old(target[..offset]) && target[offset + |bytes|..] == old(target[offset + |bytes|..])
    {
      for i := 0 to |bytes|
        invariant target[offset..offset + i] == bytes[..i]
        invariant target[..offset] == old(target[..offset])
        invariant target[offset + |bytes|..] == old(target[offset + |bytes|..])
      {
        target[offset + i] := bytes[i];
        assert target[offset..offset + i + 1] == target[offset..offset + i] + [bytes[i]];
        assert bytes[..i + 1] == bytes[..i] + [bytes[i]];
      }
      assert bytes[..|bytes|] == bytes;
    }

    /** `_recvMessage`: the message goes behind the unread bytes, or nothing of it arrives. */
    method RecvMessage(u8: seq<Byte>) returns (ok: bool, notify: bool)
      requires Valid()
      modifies this, rQ
      ensures ok <==> |old(Unread())| + |u8| <= MAX_RQ_GROW_SIZE
      ensures ok ==> Valid() && Unread() == old(Unread()) + u8 && (rQ == old(rQ) || fresh(rQ))
      ensures notify <==> ok && |old(Unread()) + u8| > 0
    {
      ghost var unread := Unread();
      if rQlen == rQi {
        rQlen := 0;
        rQi := 0;
      }
      assert Unread() == unread;
      if |u8| > rQbufferSize - rQlen {
        ok := ExpandCompactRQ(|u8|);
        if !ok {
          return false, false;
        }
      }
      assert rQ[rQi..rQlen] == unread;
      CopyInto(rQ, rQlen, u8);
      assert rQ[rQi..rQlen] == unread by {
        assert forall i :: 0 <= i < rQlen ==> rQ[..rQlen][i] == rQ[i];
      }
      rQlen := rQlen + |u8|;
      assert rQ[rQi..rQlen] == unread + u8;
      return true, rQlen - rQi > 0;
    }
  }

  // ----- arithmetic of the signed shifts --------------------------------------------------------

  /** After `n` of the bytes, `res` is their value in place, less 2^32 when the top bit of
      a full word made the first shift negative. */
  predicate Shifted(taken: seq<Byte>, n: nat, res: int)
    requires n <= |taken|
  {
    var exact := BigEndian(taken[..n]) * Power256(|taken| - n);
    res == exact || (|taken| == 4 && n > 0 && res == exact - 0x1_0000_0000)
  }

  lemma ShiftStart(taken: seq<Byte>)
    ensures Shifted(taken, 0, 0)
  {
    assert taken[..0] == [];
  }

  lemma ShiftStep(taken: seq<Byte>, n: nat, res: int)
    requires n < |taken| <= 4 && Shifted(taken, n, res)
    ensures Shifted(taken, n + 1, res + ShiftedLeft(taken[n], |taken| - 1 - n))
  {
    var unit := Power256(|taken| - 1 - n);
    var high := BigEndian(taken[..n]);
    assert taken[..n + 1] == taken[..n] + [taken[n]];
    BigEndianPush(taken[..n], taken[n]);
    assert Power256(|taken| - n) == 256 * unit;
    Distribute(high, taken[n], unit);
    SmallShift(taken[n], |taken| - 1 - n);
    hide BigEndian, Power256, ShiftedLeft;
    assert |taken| - 1 - n == 3 ==> n == 0 && |taken| == 4;
    if n == 0 {
      NothingBefore(taken);
    }
  }

  lemma NothingBefore(taken: seq<Byte>)
    ensures BigEndian(taken[..0]) == 0
  {
    assert taken[..0] == [];
  }

  lemma ShiftEnd(taken: seq<Byte>, res: int)
    requires |taken| <= 4 && Shifted(taken, |taken|, res)
    ensures res % 0x1_0000_0000 == BigEndian(taken)
  {
    assert taken[..|taken|] == taken;
    assert Power256(0) == 1;
    BigEndianBounds(taken);
    WordBound(|taken|);
  }

  lemma Distribute(high: nat, b: nat, unit: nat)
    ensures (high * 256 + b) * unit == high * (256 * unit) + b * unit
  {
  }

  lemma SmallShift(b: Byte, k: nat)
    requires k < 4
    ensures ShiftedLeft(b, k) == b * Power256(k) || (k == 3 && ShiftedLeft(b, k) == b * Power256(k) - 0x1_0000_0000)
  {
    assert Power256(0) == 1 && Power256(1) == 256 && Power256(2) == 0x1_0000 && Power256(3) == 0x100_0000;
  }

  lemma WordBound(n: nat)
    requires n <= 4
    ensures Power256(n) <= 0x1_0000_0000
  {
    assert Power256(0) == 1 && Power256(1) == 256 && Power256(2) == 0x1_0000 && Power256(3) == 0x100_0000;
    assert Power256(4) == 0x1_0000_0000;
  }
}
