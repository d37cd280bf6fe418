/** The display as the decoders see it: an object that is told what to draw. */
module Screen {
  import opened Bytes
  import opened Resume
  import opened Websock

  class Recorder {
    var calls: seq<Call>

    constructor ()
      ensures calls == []
    {
      calls := [];
    }

    method FillRect(x: int, y: int, width: nat, height: nat, color: seq<Byte>)
      modifies this
      ensures calls == old(calls) + [Fill(x, y, width, height, color)]
    {
      calls := calls + [Fill(x, y, width, height, color)];
    }

    method BlitImage(x: int, y: int, width: nat, height: nat, pixels: seq<Byte>)
      modifies this
      ensures calls == old(calls) + [Blit(x, y, width, height, pixels)]
    {
      calls := calls + [Blit(x, y, width, height, pixels)];
    }

    method ImageRect(x: int, y: int, width: nat, height: nat, data: seq<Byte>)
      modifies this
      ensures calls == old(calls) + [Picture(x, y, width, height, data)]
    {
      calls := calls + [Picture(x, y, width, height, data)];
    }
  }

  /** The pixels with full alpha. */
  function Opaque(data: seq<Byte>): (t: seq<Byte>)
    ensures |t| == |data|
  {
    seq(|data|, k requires 0 <= k < |data| => if k % 4 == 3 then 255 else data[k])
  }

  /** The alpha bytes of pixels already read are set where they lie in the receive queue. */
  method MakeOpaque(sock: Queue, start: nat, pixels: nat)
    requires sock.Valid() && start + pixels * 4 <= sock.rQi
    modifies sock.rQ
    ensures sock.Valid() && sock.Unread() == old(sock.Unread())
    ensures sock.rQ[start..start + pixels * 4] == Opaque(old(sock.rQ[start..start + pixels * 4]))
  {
    ghost var before := sock.rQ[..];
    for i := 0 to pixels
      invariant forall k :: 0 <= k < sock.rQ.Length ==>
                  sock.rQ[k] == if start <= k < start + i * 4 && (k - start) % 4 == 3 then 255 else before[k]
    {
      sock.rQ[start + i * 4 + 3] := 255;
    }
    assert sock.Unread() == before[sock.rQi..sock.rQlen];
  }
}
