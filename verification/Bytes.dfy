/** Bytes and the numbers they stand for. */
module Bytes {
  type Byte = x: int | 0 <= x < 256 witness 0

  /** What a cipher answers; a missing answer is null. */
  datatype Answer = Null | Answer(bytes: seq<Byte>)

  /** The value of bytes in network order. */
  function BigEndian(bytes: seq<Byte>): nat {
    if bytes == [] then 0 else BigEndian(bytes[..|bytes| - 1]) * 256 + bytes[|bytes| - 1]
  }

  function Power256(n: nat): (r: nat)
    ensures r >= 1
  {
    if n == 0 then 1 else 256 * Power256(n - 1)
  }

  lemma {:induction false} BigEndianPush(bytes: seq<Byte>, b: Byte)
    ensures BigEndian(bytes + [b]) == BigEndian(bytes) * 256 + b
  {
    assert (bytes + [b])[..|bytes|] == bytes;
  }

  lemma BigEndianBounds(bytes: seq<Byte>)
    ensures BigEndian(bytes) < Power256(|bytes|)
  {
  }

  /** `n` in network order on `k` bytes. */
  function InBytes(n: nat, k: nat): (bytes: seq<Byte>)
    requires n < Power256(k)
    ensures |bytes| == k
  {
    if k == 0 then [] else InBytes(n / 256, k - 1) + [n % 256]
  }

  lemma {:induction false} InBytesValue(n: nat, k: nat)
    requires n < Power256(k)
    ensures BigEndian(InBytes(n, k)) == n
  {
    if k > 0 {
      InBytesValue(n / 256, k - 1);
      BigEndianPush(InBytes(n / 256, k - 1), n % 256);
    }
  }

  lemma {:induction false} Power256Grows(m: nat, n: nat)
    requires m <= n
    ensures Power256(m) <= Power256(n)
    decreases n
  {
    if m < n {
      Power256Grows(m, n - 1);
    }
  }

  lemma {:induction false} SameNumber(a: seq<Byte>, b: seq<Byte>)
    requires |a| == |b| && BigEndian(a) == BigEndian(b)
    ensures a == b
    decreases |a|
  {
    if a != [] {
      var n := |a| - 1;
      SameNumber(a[..n], b[..n]);
      assert a == a[..n] + [a[n]] && b == b[..n] + [b[n]];
    }
  }
}
