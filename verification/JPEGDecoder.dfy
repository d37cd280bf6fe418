/** JPEG rectangles (pond-sec/app/static/novnc/core/decoders/jpeg.js): the image is read
    segment by segment, and tables that a later image leaves out are filled in from an
    earlier one. */
module JPEGDecoding {
  import opened Bytes
  import opened Resume
  import opened Websock
  import opened Screen
  import opened Tiling

  const EOI: Byte := 0xD9
  const SOS: Byte := 0xDA
  const DHT: Byte := 0xC4
  const DQT: Byte := 0xDB

  /** Markers without a length. */
  predicate Bare(kind: Byte) {
    0xD0 <= kind <= 0xD9 || kind == 0x01
  }

  /** Two bytes that end entropy-coded data: neither a stuffed byte nor a restart marker. */
  predicate EndsScan(a: Byte, b: Byte) {
    a == 0xFF && b != 0x00 && !(0xD0 <= b <= 0xD7)
  }

  // ----- one segment ----------------------------------------------------------------------------

  datatype Found = Missing | Broken | Ends(n: nat)

  /** The first place from `k` on where scan data ends, if its two bytes have arrived. */
  function ScanEnd(input: seq<Byte>, k: nat): (f: Found)
    ensures f.Ends? ==> k <= f.n < |input| && f.n + 2 <= |input| && EndsScan(input[f.n], input[f.n + 1])
    ensures f.Ends? ==> forall i :: k <= i < f.n ==> !EndsScan(input[i], input[i + 1])
    ensures !f.Broken?
    decreases |input| - k
  {
    if k + 2 > |input| then Missing
    else if EndsScan(input[k], input[k + 1]) then Ends(k)
    else ScanEnd(input, k + 1)
  }

  /** The length of the segment at the front of the input. */
  function Segment(input: seq<Byte>): (f: Found)
    ensures f.Ends? ==> 2 <= f.n <= |input|
  {
    if |input| < 2 then Missing
    else if input[0] != 0xFF then Broken
    else if Bare(input[1]) then Ends(2)
    else if |input| < 4 then Missing
    else
      var length := BigEndian(input[2..4]);
      if length < 2 then Broken
      else if |input| < 2 + length then Missing
      else if input[1] == SOS then ScanEnd(input, 2 + length)
      else Ends(2 + length)
  }

  lemma {:induction false} ScanEndStays(a: seq<Byte>, b: seq<Byte>, k: nat)
    requires ScanEnd(a, k).Ends?
    ensures ScanEnd(a + b, k) == ScanEnd(a, k)
    decreases |a| - k
  {
    if !EndsScan(a[k], a[k + 1]) {
      ScanEndStays(a, b, k + 1);
    }
  }

  lemma SegmentStays(a: seq<Byte>, b: seq<Byte>)
    requires !Segment(a).Missing?
    ensures Segment(a + b) == Segment(a)
  {
    if |a| >= 4 {
      assert (a + b)[2..4] == a[2..4];
      var length := BigEndian(a[2..4]);
      if LongEnough(a, length) && a[1] == SOS && a[0] == 0xFF {
        ScanEndStays(a, b, 2 + length);
      }
    }
  }

  predicate LongEnough(a: seq<Byte>, length: nat) {
    |a| >= 2 + length && length >= 2
  }

  // ----- the whole image --------------------------------------------------------------------------

  /** Segments read so far of the current image, and the tables of earlier images. */
  datatype State = State(segments: seq<seq<Byte>>, quantTables: seq<seq<Byte>>, huffmanTables: seq<seq<Byte>>)

  ghost predicate WellFormed(segments: seq<seq<Byte>>) {
    forall s <- segments :: |s| >= 2
  }

  function OfKind(segments: seq<seq<Byte>>, kind: Byte): (r: seq<seq<Byte>>)
    requires forall s <- segments :: |s| >= 2
    ensures forall s <- r :: s in segments
  {
    if segments == [] then []
    else
      var n := |segments| - 1;
      OfKind(segments[..n], kind) + if segments[n][1] == kind then [segments[n]] else []
  }

  /** The place of the first start-of-frame segment, or the number of segments. */
  function FrameAt(segments: seq<seq<Byte>>): (i: nat)
    requires forall s <- segments :: |s| >= 2
    ensures i <= |segments|
    ensures i < |segments| ==> segments[i][1] == 0xC0 || segments[i][1] == 0xC2
    ensures forall k :: 0 <= k < i ==> segments[k][1] != 0xC0 && segments[k][1] != 0xC2
  {
    if segments == [] then 0
    else if segments[0][1] == 0xC0 || segments[0][1] == 0xC2 then 0
    else FrameAt(segments[1..]) + 1
  }

  function Splice(segments: seq<seq<Byte>>, i: nat, more: seq<seq<Byte>>): seq<seq<Byte>>
    requires i <= |segments|
  {
    segments[..i] + more + segments[i..]
  }

  /** All segments of the image, missing tables filled in behind the frame header. */
  function Completed(s: State): seq<seq<Byte>>
    requires (forall x <- s.segments :: |x| >= 2) && FrameAt(s.segments) < |s.segments|
  {
    var at_ := FrameAt(s.segments) + 1;
    var withQuant := if OfKind(s.segments, DQT) == [] then Splice(s.segments, at_, s.quantTables) else s.segments;
    if OfKind(s.segments, DHT) == [] then Splice(withQuant, at_, s.huffmanTables) else withQuant
  }

  function Flat(segments: seq<seq<Byte>>): seq<Byte> {
    if segments == [] then [] else Flat(segments[..|segments| - 1]) + segments[|segments| - 1]
  }

  function Remembered(s: State): State
    requires forall x <- s.segments :: |x| >= 2
  {
    var quant, huffman := OfKind(s.segments, DQT), OfKind(s.segments, DHT);
    State([], if quant == [] then s.quantTables else quant, if huffman == [] then s.huffmanTables else huffman)
  }

  ghost predicate Complete(s: State) {
    s.segments != [] && |s.segments[|s.segments| - 1]| >= 2 && s.segments[|s.segments| - 1][1] == EOI
  }

  ghost function SegmentStep(r: Rect, s: State, input: seq<Byte>): Move<State> {
    if !WellFormed(s.segments) then Fail
    else if Complete(s) then
      if FrameAt(s.segments) == |s.segments| then Fail
      else Done(Remembered(s), [Picture(r.x, r.y, r.width, r.height, Flat(Completed(s)))])
    else
      match Segment(input)
      case Missing => Wait
      case Broken => Fail
      case Ends(n) => Take(n, s.(segments := s.segments + [input[..n]]), [])
  }

  ghost function Segments(r: Rect): (State, seq<Byte>) -> Move<State> {
    (s, input) => SegmentStep(r, s, input)
  }

  lemma SegmentsSteady(r: Rect)
    ensures Steady(Segments(r))
  {
    forall s, a, b ensures SteadyAt(Segments(r), s, a, b) {
      if !Segment(a).Missing? {
        SegmentStays(a, b);
        if Segment(a).Ends? {
          assert (a + b)[..Segment(a).n] == a[..Segment(a).n];
        }
      }
    }
  }

  ghost function Decoded(r: Rect, s: State, input: seq<Byte>): Progress<State> {
    SegmentsSteady(r);
    Run(Segments(r), s, input)
  }

  /** Between calls the image under way is well formed and not complete. */
  ghost predicate Resting(s: State) {
    WellFormed(s.segments) && !Complete(s)
  }

  lemma {:induction false} StaysResting(r: Rect, s: State, input: seq<Byte>)
    requires Steady(Segments(r)) && WellFormed(s.segments)
    ensures var p := Run(Segments(r), s, input);
            && WellFormed(p.state.segments)
            && (p.status == Waiting ==> Resting(p.state))
            && (p.status == Finished ==> p.state.segments == [])
    decreases |input|
  {
    assert SteadyAt(Segments(r), s, input, []);
    var move := SegmentStep(r, s, input);
    if move.Take? {
      StaysResting(r, move.next, input[move.n..]);
    }
  }

  /** What one segment does to an image under way. */
  lemma SegmentTurn(r: Rect, s: State, input: seq<Byte>)
    requires Resting(s)
    ensures var move := Segments(r)(s, input);
            match Segment(input)
            case Missing => move == Wait
            case Broken => move == Fail
            case Ends(n) =>
              && 2 <= n <= |input| && move == Take(n, s.(segments := s.segments + [input[..n]]), [])
              && WellFormed(move.next.segments) && (if input[1] == EOI then Complete(move.next) else Resting(move.next))
  {
    hide Segment, Completed, Remembered, FrameAt, Flat;
  }

  // ----- the decoder object --------------------------------------------------------------------------

  class JPEGDecoder {
    var cachedQuantTables: seq<seq<Byte>>
    var cachedHuffmanTables: seq<seq<Byte>>
    var segments: seq<seq<Byte>>

    constructor ()
      ensures segments == [] && cachedQuantTables == [] && cachedHuffmanTables == []
    {
      cachedQuantTables, cachedHuffmanTables, segments := [], [], [];
    }

    ghost function Abstract(): State
      reads this
    {
      State(segments, cachedQuantTables, cachedHuffmanTables)
    }

    /** `goback` bytes before the read index the input began. */
    ghost predicate Since(sock: Queue, input: seq<Byte>, goback: nat)
      requires sock.Valid()
      reads sock, sock.rQ
    {
      goback <= sock.rQi && sock.rQ[sock.rQi - goback..sock.rQlen] == input && sock.Unread() == input[goback..]
    }

    /** Wait for `num` bytes; if they are missing the input is as it was. */
    method WaitOrRestore(sock: Queue, num: nat, goback: nat, ghost input: seq<Byte>) returns (wait: bool)
      requires sock.Valid() && goback <= |input| && Since(sock, input, goback)
      modifies sock`rQi
      ensures sock.Valid() && (wait <==> |input| < num + goback)
      ensures wait ==> sock.Unread() == input
      ensures !wait ==> Since(sock, input, goback)
    {
      wait := sock.RQwait(num, goback);
    }

    /** One look of the scan loop: do the last two of `n` bytes end the scan? */
    method LooksEnded(sock: Queue, n: nat, ghost input: seq<Byte>) returns (ended: bool)
      requires sock.Valid() && 2 <= n && n + 4 <= |input| && Since(sock, input, 4)
      ensures ended <==> EndsScan(input[n + 2], input[n + 3])
    {
      var data := sock.RQpeekBytes(n);
      assert data[n - 2] == input[n + 2] && data[n - 1] == input[n + 3];
      return data[n - 2] == 0xFF && data[n - 1] != 0x00 && !(0xD0 <= data[n - 1] <= 0xD7);
    }

    /** The scan loop of `_readSegment`: bytes are peeked further and further until the end
        of the entropy-coded data shows, or the header is put back and more must come. */
    method Scan(sock: Queue, length: nat, ghost input: seq<Byte>) returns (found: bool, extra: nat)
      requires sock.Valid() && length >= 2 && length + 2 <= |input| && Since(sock, input, 4)
      modifies sock`rQi
      ensures sock.Valid()
      ensures found == ScanEnd(input, 2 + length).Ends?
      ensures found ==> 2 + length + extra == ScanEnd(input, 2 + length).n && Since(sock, input, 4)
      ensures !found ==> sock.Unread() == input
    {
      hide Since, ScanEnd, EndsScan;
      extra := 2;
      while true
        invariant sock.Valid() && Since(sock, input, 4) && extra >= 2
        invariant ScanEnd(input, 2 + length) == ScanEnd(input, length + extra)
        decreases |input| - extra
      {
        ScanTurn(input, length + extra);
        var wait := WaitOrRestore(sock, length - 2 + extra, 4, input);
        if wait {
          return false, extra;
        }
        var ended := LooksEnded(sock, length - 2 + extra, input);
        if ended {
          extra := extra - 2;
          break;
        }
        extra := extra + 1;
      }
      return true, extra;
    }

    method ReadLength(sock: Queue, ghost input: seq<Byte>) returns (length: nat)
      requires sock.Valid() && |input| >= 4 && Since(sock, input, 2)
      modifies sock`rQi
      ensures sock.Valid() && Since(sock, input, 4) && length == BigEndian(input[2..4])
    {
      assert input[2..][..2] == input[2..4] && input[2..][2..] == input[4..];
      length := sock.RQshift16();
    }

    method TakeBody(sock: Queue, marker: Byte, kind: Byte, length: nat, extra: nat, ghost input: seq<Byte>)
      returns (segment: seq<Byte>)
      requires sock.Valid() && length >= 2 && 2 + length + extra <= |input| && Since(sock, input, 4)
      requires input[0] == marker && input[1] == kind && length == BigEndian(input[2..4])
      modifies sock`rQi
      ensures sock.Valid() && sock.Unread() == input[2 + length + extra..] && segment == input[..2 + length + extra]
    {
      hide BigEndian;
      var n := length - 2 + extra;
      SegmentParts(input, n);
      var body := sock.RQshiftBytes(n);
      segment := Assemble(input[..4], marker, kind, length, body);
    }

    /** `_readSegment` after the length: for a scan, the end is searched first. */
    method ReadCounted(sock: Queue, marker: Byte, kind: Byte, length: nat, ghost input: seq<Byte>)
      returns (found: Found, segment: seq<Byte>)
      requires sock.Valid() && length >= 2 && 2 + length <= |input| && Since(sock, input, 4)
      requires input[0] == marker && input[1] == kind && length == BigEndian(input[2..4])
      modifies sock`rQi
      ensures found == if kind == SOS then ScanEnd(input, 2 + length) else Ends(2 + length)
      ensures found.Missing? ==> sock.Valid() && sock.Unread() == input
      ensures found.Ends? ==> sock.Valid() && sock.Unread() == input[found.n..] && segment == input[..found.n]
    {
      hide Since, ScanEnd, BigEndian;
      var extra := 0;
      if kind == SOS {
        var ended;
        ended, extra := Scan(sock, length, input);
        if !ended {
          return Missing, [];
        }
      }
      segment := TakeBody(sock, marker, kind, length, extra, input);
      found := Ends(2 + length + extra);
    }

    /** `_readSegment` after the marker. */
    method ReadRest(sock: Queue, marker: Byte, kind: Byte, ghost input: seq<Byte>)
      returns (found: Found, segment: seq<Byte>)
      requires sock.Valid() && |input| >= 2 && Since(sock, input, 2)
      requires marker == 0xFF && input[0] == marker && input[1] == kind && !Bare(kind)
      modifies sock`rQi
      ensures found == Segment(input)
      ensures found.Missing? ==> sock.Valid() && sock.Unread() == input
      ensures found.Ends? ==> sock.Valid() && sock.Unread() == input[found.n..] && segment == input[..found.n]
    {
      SegmentShort(input);
      hide Since, ScanEnd, BigEndian, Segment;
      var wait := WaitOrRestore(sock, 2, 2, input);
      if wait {
        return Missing, [];
      }
      var length := ReadLength(sock, input);
      SegmentLong(input, length);
      if length < 2 {
        return Broken, [];
      }
      wait := WaitOrRestore(sock, length - 2, 4, input);
      if wait {
        return Missing, [];
      }
      found, segment := ReadCounted(sock, marker, kind, length, input);
    }

    /** `_readSegment`: a whole segment is taken, or nothing is. */
    method ReadSegment(sock: Queue) returns (found: Found, segment: seq<Byte>)
      requires sock.Valid()
      modifies sock`rQi
      ensures found == Segment(old(sock.Unread()))
      ensures found.Missing? ==> sock.Valid() && sock.Unread() == old(sock.Unread())
      ensures found.Ends? ==> sock.Valid() && sock.Unread() == old(sock.Unread())[found.n..]
                              && segment == old(sock.Unread())[..found.n]
    {
      ghost var input := sock.Unread();
      var wait := sock.RQwait(2, 0);
      if wait {
        return Missing, [];
      }
      var marker := sock.RQshift8();
      if marker != 0xFF {
        return Broken, [];
      }
      var kind := sock.RQshift8();
      assert Since(sock, input, 2);
      if Bare(kind) {
        return Ends(2), [marker, kind];
      }
      found, segment := ReadRest(sock, marker, kind, input);
    }

    /** Marker, kind and length are written again in front of the body. */
    method Assemble(ghost header: seq<Byte>, marker: Byte, kind: Byte, length: nat, body: seq<Byte>)
      returns (segment: seq<Byte>)
      requires |header| == 4 && header[0] == marker && header[1] == kind && length == BigEndian(header[2..4])
      ensures segment == header + body
    {
      HighLow(header[2..4]);
      var head := new Byte[4](_ => 0);
      head[0], head[1] := marker, kind;
      head[2], head[3] := length / 256, length % 256;
      assert head[..] == header;
      segment := head[..] + body;
    }

    /** Tables of the image, sorted out in one pass. */
    method CollectTables() returns (huffmanTables: seq<seq<Byte>>, quantTables: seq<seq<Byte>>)
      requires WellFormed(segments)
      ensures huffmanTables == OfKind(segments, DHT) && quantTables == OfKind(segments, DQT)
    {
      huffmanTables, quantTables := [], [];
      for i := 0 to |segments|
        invariant huffmanTables == OfKind(segments[..i], DHT) && quantTables == OfKind(segments[..i], DQT)
      {
        assert segments[..i + 1][..i] == segments[..i];
        var kind := segments[i][1];
        if kind == DHT {
          huffmanTables := huffmanTables + [segments[i]];
        } else if kind == DQT {
          quantTables := quantTables + [segments[i]];
        }
      }
      assert segments[..|segments|] == segments;
    }

    method FindFrame() returns (i: nat)
      requires WellFormed(segments)
      ensures i == FrameAt(segments)
    {
      i := 0;
      while i < |segments| && segments[i][1] != 0xC0 && segments[i][1] != 0xC2
        invariant i <= |segments| && FrameAt(segments) == i + FrameAt(segments[i..])
      {
        assert segments[i..][1..] == segments[i + 1..];
        i := i + 1;
      }
    }

    /** All segments are copied behind one another into one array. */
    method Join(parts: seq<seq<Byte>>) returns (data: seq<Byte>)
      ensures data == Flat(parts)
    {
      var length := 0;
      for i := 0 to |parts|
        invariant length == |Flat(parts[..i])|
      {
        assert parts[..i + 1][..i] == parts[..i];
        length := length + |parts[i]|;
      }
      assert parts[..|parts|] == parts;
      var buffer := new Byte[length](_ => 0);
      length := 0;
      for i := 0 to |parts|
        invariant length == |Flat(parts[..i])| <= buffer.Length && buffer[..length] == Flat(parts[..i])
      {
        assert parts[..i + 1][..i] == parts[..i];
        FlatFits(parts, i);
        Queue.CopyInto(buffer, length, parts[i]);
        assert buffer[..length + |parts[i]|] == buffer[..length] + buffer[length..length + |parts[i]|];
        length := length + |parts[i]|;
      }
      data := buffer[..];
      assert buffer[..length] == data;
    }

    /** Tables that the image lacks are put behind its frame header. */
    method CompleteTables(sofIndex: nat, huffmanTables: seq<seq<Byte>>, quantTables: seq<seq<Byte>>)
      requires WellFormed(segments) && sofIndex == FrameAt(segments) < |segments|
      requires huffmanTables == OfKind(segments, DHT) && quantTables == OfKind(segments, DQT)
      modifies `segments
      ensures segments == Completed(old(Abstract()))
    {
      hide FrameAt, OfKind;
      if quantTables == [] {
        segments := Splice(segments, sofIndex + 1, cachedQuantTables);
      }
      if huffmanTables == [] {
        segments := Splice(segments, sofIndex + 1, cachedHuffmanTables);
      }
    }

    /** The finished image is completed, handed over and forgotten, except for its tables. */
    method ShowImage(r: Rect, display: Recorder) returns (ok: bool)
      requires WellFormed(segments)
      modifies this, display
      ensures ok <==> FrameAt(old(segments)) < |old(segments)|
      ensures ok ==> Abstract() == Remembered(old(Abstract()))
                     && display.calls == old(display.calls)
                                         + [Picture(r.x, r.y, r.width, r.height, Flat(Completed(old(Abstract()))))]
      ensures !ok ==> display.calls == old(display.calls)
    {
      hide Completed, Flat;
      var huffmanTables, quantTables := CollectTables();
      var sofIndex := FindFrame();
      if sofIndex == |segments| {
        return false;
      }
      CompleteTables(sofIndex, huffmanTables, quantTables);
      var data := Join(segments);
      display.ImageRect(r.x, r.y, r.width, r.height, data);
      if huffmanTables != [] {
        cachedHuffmanTables := huffmanTables;
      }
      if quantTables != [] {
        cachedQuantTables := quantTables;
      }
      segments := [];
      return true;
    }

    /** Segments are read until the image ends; `status` tells whether it did. */
    method ReadImage(r: Rect, sock: Queue, ghost goal: Progress<State>) returns (status: Status)
      requires sock.Valid() && Resting(Abstract()) && Steady(Segments(r))
      requires goal == Run(Segments(r), Abstract(), sock.Unread())
      modifies `segments, sock`rQi
      ensures status == Failed ==> goal.status == Failed && goal.calls == []
      ensures status == Waiting ==> sock.Valid() && Resting(Abstract())
                                    && goal == Progress(Waiting, Abstract(), sock.Unread(), [])
      ensures status == Finished ==> sock.Valid() && WellFormed(segments) && Complete(Abstract())
                                     && goal == Run(Segments(r), Abstract(), sock.Unread())
    {
      hide Run, Segment, Segments, SegmentStep, Steady, Resting, WellFormed, Complete;
      ghost var units := Segments(r);
      AfterNothing(goal);
      while true
        invariant sock.Valid() && Resting(Abstract())
        invariant goal == After([], Run(units, Abstract(), sock.Unread()))
        decreases |sock.Unread()|
      {
        ghost var s, input := Abstract(), sock.Unread();
        SegmentTurn(r, s, input);
        var found, segment := ReadSegment(sock);
        if !found.Ends? {
          Stops(units, goal, [], s, input);
          return if found.Missing? then Waiting else Failed;
        }
        Advances(units, goal, [], s, input);
        segments := segments + [segment];
        if segment[1] == EOI {
          AfterNothing(Run(units, Abstract(), sock.Unread()));
          return Finished;
        }
      }
    }

    method DecodeRect(r: Rect, sock: Queue, display: Recorder) returns (status: Status)
      requires sock.Valid() && Resting(Abstract())
      modifies this, sock`rQi, display
      ensures var p := Decoded(r, old(Abstract()), old(sock.Unread()));
              status == p.status && display.calls == old(display.calls) + p.calls
              && (status != Failed ==>
                    sock.Valid() && Resting(Abstract()) && Abstract() == p.state && sock.Unread() == p.rest)
    {
      SegmentsSteady(r);
      ghost var goal := Decoded(r, Abstract(), sock.Unread());
      status := ReadImage(r, sock, goal);
      if status != Finished {
        return;
      }
      RememberedRests(Abstract());
      ImageEnds(r, Abstract(), sock.Unread());
      hide Segment, Completed, Remembered, Run, Flat, FrameAt, Resting;
      var ok := ShowImage(r, display);
      return if ok then Finished else Failed;
    }
  }

  lemma SegmentParts(input: seq<Byte>, n: nat)
    requires 4 + n <= |input|
    ensures input[4..][n..] == input[n + 4..] && input[..4][2..4] == input[2..4]
    ensures input[..4] + input[4..][..n] == input[..n + 4]
  {
    assert input[4..][..n] == input[4..n + 4];
  }

  lemma SegmentShort(input: seq<Byte>)
    requires |input| >= 2 && input[0] == 0xFF && !Bare(input[1])
    ensures |input| < 4 ==> Segment(input) == Missing
  {
  }

  lemma SegmentLong(input: seq<Byte>, length: nat)
    requires |input| >= 4 && input[0] == 0xFF && !Bare(input[1]) && length == BigEndian(input[2..4])
    ensures Segment(input)
         == if length < 2 then Broken
            else if |input| < 2 + length then Missing
            else if input[1] == SOS then ScanEnd(input, 2 + length)
            else Ends(2 + length)
  {
  }

  lemma ImageEnds(r: Rect, s: State, input: seq<Byte>)
    requires Steady(Segments(r)) && WellFormed(s.segments) && Complete(s)
    ensures Run(Segments(r), s, input)
         == if FrameAt(s.segments) == |s.segments| then Progress(Failed, s, input, [])
            else Progress(Finished, Remembered(s), input, [Picture(r.x, r.y, r.width, r.height, Flat(Completed(s)))])
  {
  }

  lemma ScanTurn(input: seq<Byte>, k: nat)
    ensures ScanEnd(input, k)
         == if k + 2 > |input| then Missing else if EndsScan(input[k], input[k + 1]) then Ends(k)
         else ScanEnd(input, k + 1)
  {
  }

  lemma RememberedRests(s: State)
    requires WellFormed(s.segments)
    ensures Resting(Remembered(s))
  {
  }

  lemma HighLow(bytes: seq<Byte>)
    requires |bytes| == 2
    ensures BigEndian(bytes) / 256 == bytes[0] && BigEndian(bytes) % 256 == bytes[1]
  {
    assert bytes[..1][..0] == [];
    assert BigEndian(bytes[..1]) == bytes[0];
  }

  lemma {:induction false} FlatFits(parts: seq<seq<Byte>>, i: nat)
    requires i < |parts|
    ensures |Flat(parts[..i])| + |parts[i]| <= |Flat(parts)|
    decreases |parts| - i
  {
    assert parts[..i + 1][..i] == parts[..i];
    if i + 1 < |parts| {
      FlatFits(parts, i + 1);
    } else {
      assert parts[..i + 1] == parts;
    }
  }

  // ----- an image that arrives in messages ---------------------------------------------------------

  lemma FirstReached(r: Rect, s: State, input: seq<Byte>)
    requires WellFormed(s.segments)
    ensures var p := Decoded(r, s, input);
            && (p.status == Waiting ==> Resting(p.state))
            && (p.status == Finished ==> p.state.segments == [])
  {
    SegmentsSteady(r);
    StaysResting(r, s, input);
  }

  lemma ReachedMore(r: Rect, s: State, all: seq<Byte>, m: seq<Byte>)
    ensures Decoded(r, s, all + m)
         == var p := Decoded(r, s, all);
            if p.status == Waiting then After(p.calls, Decoded(r, p.state, p.rest + m)) else p.(rest := p.rest + m)
  {
    SegmentsSteady(r);
    Resumes(Segments(r), s, all, m);
  }

  /** What remains unread is no longer than what came. */
  lemma NoLonger(r: Rect, s: State, all: seq<Byte>)
    ensures |Decoded(r, s, all).rest| <= |all|
  {
    SegmentsSteady(r);
    RestIsSuffix(Segments(r), s, all);
  }

  /** However the bytes are cut into messages, the same image is shown, the same bytes are
      consumed, the same tables are remembered and the same inputs are refused. */
  method ReceiveRect(r: Rect, decoder: JPEGDecoder, sock: Queue, display: Recorder, messages: seq<seq<Byte>>)
    returns (status: Status, overflow: bool)
    requires sock.Valid() && Resting(decoder.Abstract())
    modifies decoder, sock, sock.rQ, display
    ensures !overflow ==>
              var p := Decoded(r, old(decoder.Abstract()), old(sock.Unread()) + Concat(messages));
              status == p.status && display.calls == old(display.calls) + p.calls
              && (status != Failed ==> sock.Valid() && decoder.Abstract() == p.state && sock.Unread() == p.rest)
    ensures overflow ==> |old(sock.Unread())| + |Concat(messages)| > MAX_RQ_GROW_SIZE
  {
    hide Run, Decoded, Resting;
    ghost var s, first, before := decoder.Abstract(), sock.Unread(), display.calls;
    status := decoder.DecodeRect(r, sock, display);
    overflow := false;
    ghost var all, calls := first, Decoded(r, s, first).calls;
    if status == Failed {
      ReachedMore(r, s, first, Concat(messages));
      return;
    }
    for i := 0 to |messages|
      invariant sock.Valid() && Resting(decoder.Abstract()) && (sock.rQ == old(sock.rQ) || fresh(sock.rQ))
      invariant all + Concat(messages[i..]) == first + Concat(messages) && display.calls == before + calls
      invariant status != Failed && Decoded(r, s, all) == Progress(status, decoder.Abstract(), sock.Unread(), calls)
    {
      var m := messages[i];
      ReachedMore(r, s, all, m);
      ghost var more := Decoded(r, decoder.Abstract(), sock.Unread() + m).calls;
      ConcatNext(all, messages, i);
      NoLonger(r, s, all);
      var ok, _ := sock.RecvMessage(m);
      if !ok {
        return status, true;
      }
      all := all + m;
      if status == Waiting {
        status := decoder.DecodeRect(r, sock, display);
        calls := calls + more;
        if status == Failed {
          ReachedMore(r, s, all, Concat(messages[i + 1..]));
          return;
        }
      }
    }
    assert messages[|messages|..] == [] && all + [] == all;
  }
}
