/** Raw encoding (section 7.7.1 of RFC 6143; pond-sec/app/static/novnc/core/decoders/raw.js). */
module RawDecoding {
  import opened Bytes
  import opened Resume
  import opened Websock
  import opened Screen
  import opened Tiling
  import opened Arithmetic

  // ----- one line ----------------------------------------------------------------------------

  /** Two bits of a colour, stretched to a byte. */
  function Stretch(bits: nat): Byte {
    bits % 4 * 85
  }

  /** The red, green, blue and alpha bytes of pixel `i` of a line. */
  function PixelByte(depth8: bool, data: seq<Byte>, k: nat): Byte
    requires if depth8 then k / 4 < |data| else k < |data|
  {
    if k % 4 == 3 then 255
    else if !depth8 then data[k]
    else Stretch(if k % 4 == 0 then data[k / 4] else if k % 4 == 1 then data[k / 4] / 4 else data[k / 4] / 16)
  }

  function BytesPerLine(width: nat, depth8: bool): nat {
    if depth8 then width else width * 4
  }

  function LinePixels(width: nat, depth8: bool, data: seq<Byte>): (r: seq<Byte>)
    requires |data| == BytesPerLine(width, depth8)
    ensures |r| == width * 4
  {
    seq(width * 4, k requires 0 <= k < width * 4 => PixelByte(depth8, data, k))
  }

  lemma PixelParts(width: nat, depth8: bool, data: seq<Byte>, i: nat)
    requires i < width && |data| == BytesPerLine(width, depth8)
    ensures var line := LinePixels(width, depth8, data);
            && line[i * 4 + 3] == 255
            && (if depth8 then line[i * 4] == Stretch(data[i]) && line[i * 4 + 1] == Stretch(data[i] / 4)
                               && line[i * 4 + 2] == Stretch(data[i] / 16)
                else line[i * 4] == data[i * 4] && line[i * 4 + 1] == data[i * 4 + 1]
                     && line[i * 4 + 2] == data[i * 4 + 2])
  {
    hide Stretch;
  }

  lemma StretchedParts(b: nat, red: nat, green: nat, blue: nat, unused: nat)
    requires red < 4 && green < 4 && blue < 4 && unused < 4 && b == red + 4 * green + 16 * blue + 64 * unused
    ensures Stretch(b) == red * 85 && Stretch(b / 4) == green * 85 && Stretch(b / 16) == blue * 85
  {
    DivideUnique(b, green + 4 * blue + 16 * unused, 4);
    DivideUnique(b / 4, blue + 4 * unused, 4);
    DivideUnique(b, blue + 4 * unused, 16);
  }

  /** A byte packs a colour, two bits each for red, green and blue from the low end. */
  lemma PackedPixel(width: nat, data: seq<Byte>, i: nat, red: nat, green: nat, blue: nat, unused: nat)
    requires i < width == |data| && red < 4 && green < 4 && blue < 4 && unused < 4
    requires data[i] == red + 4 * green + 16 * blue + 64 * unused
    ensures LinePixels(width, true, data)[i * 4..i * 4 + 4] == [red * 85, green * 85, blue * 85, 255]
  {
    StretchedParts(data[i], red, green, blue, unused);
    PixelParts(width, true, data, i);
    hide Stretch, LinePixels;
    var line := LinePixels(width, true, data);
    assert line[i * 4..i * 4 + 4] == [line[i * 4], line[i * 4 + 1], line[i * 4 + 2], line[i * 4 + 3]];
  }

  /** Four bytes of a pixel are its colour, opaque. */
  lemma PlainPixel(width: nat, data: seq<Byte>, i: nat)
    requires i < width && |data| == width * 4
    ensures LinePixels(width, false, data)[i * 4..i * 4 + 4] == data[i * 4..i * 4 + 3] + [255]
  {
    PixelParts(width, false, data, i);
    hide LinePixels;
  }

  // ----- the decoder as units ------------------------------------------------------------------

  datatype State = State(lines: nat)

  function LineStep(r: Rect, depth8: bool, s: State, input: seq<Byte>): Move<State> {
    var n := BytesPerLine(r.width, depth8);
    if r.width == 0 || r.height == 0 || s.lines == 0 then Done(s, [])
    else if |input| < n then Wait
    else Take(n, State(s.lines - 1), [LineOf(r, depth8, s.lines, input[..n])])
  }

  /** The call for one line of bytes when `lines` lines are to go. */
  function LineOf(r: Rect, depth8: bool, lines: nat, line: seq<Byte>): Call
    requires |line| == BytesPerLine(r.width, depth8)
  {
    Blit(r.x, r.y + (r.height - lines), r.width, 1, LinePixels(r.width, depth8, line))
  }

  function Lines(r: Rect, depth8: bool): (State, seq<Byte>) -> Move<State> {
    (s, input) => LineStep(r, depth8, s, input)
  }

  lemma LinesSteady(r: Rect, depth8: bool)
    ensures Steady(Lines(r, depth8))
  {
    forall s, a, b ensures SteadyAt(Lines(r, depth8), s, a, b) {
      var n := BytesPerLine(r.width, depth8);
      if n <= |a| {
        assert (a + b)[..n] == a[..n];
      }
    }
  }

  /** Lines to go on entry: a decoder at rest begins the rectangle. */
  function Entry(r: Rect, lines: nat): State {
    State(if lines == 0 && r.width > 0 && r.height > 0 then r.height else lines)
  }

  ghost function Decoded(r: Rect, depth8: bool, lines: nat, input: seq<Byte>): Progress<State> {
    LinesSteady(r, depth8);
    Run(Lines(r, depth8), Entry(r, lines), input)
  }

  /** The decoder never fails, waits only inside a rectangle and finishes at rest. */
  lemma {:induction false} RestsOrWaits(r: Rect, depth8: bool, s: State, input: seq<Byte>)
    requires Steady(Lines(r, depth8)) && r.width > 0 && r.height > 0
    ensures var p := Run(Lines(r, depth8), s, input);
            p.status != Failed && (p.status == Waiting <==> p.state.lines > 0)
    decreases |input|
  {
    var n := BytesPerLine(r.width, depth8);
    if s.lines > 0 && |input| >= n {
      assert SteadyAt(Lines(r, depth8), s, input, []);
      RestsOrWaits(r, depth8, State(s.lines - 1), input[n..]);
    }
  }

  class RawDecoder {
    var lines: nat

    constructor ()
      ensures lines == 0
    {
      lines := 0;
    }

    /** An 8 bit line is spread out to four bytes a pixel. */
    method Spread(data: seq<Byte>) returns (pixels: seq<Byte>)
      ensures pixels == LinePixels(|data|, true, data)
    {
      var newdata := new Byte[|data| * 4](_ => 0);
      for i := 0 to |data|
        invariant forall k :: 0 <= k < i * 4 ==> newdata[k] == PixelByte(true, data, k)
      {
        newdata[i * 4] := Stretch(data[i]);
        newdata[i * 4 + 1] := Stretch(data[i] / 4);
        newdata[i * 4 + 2] := Stretch(data[i] / 16);
        newdata[i * 4 + 3] := 255;
      }
      pixels := newdata[..];
    }

    /** One line is taken off the queue and drawn. */
    method DrawLine(r: Rect, depth8: bool, sock: Queue, display: Recorder)
      requires sock.Valid() && BytesPerLine(r.width, depth8) <= |sock.Unread()|
      modifies sock, sock.rQ, display
      ensures sock.Valid() && sock.rQ == old(sock.rQ)
      ensures sock.Unread() == old(sock.Unread())[BytesPerLine(r.width, depth8)..]
      ensures display.calls == old(display.calls)
                               + [LineOf(r, depth8, lines, old(sock.Unread())[..BytesPerLine(r.width, depth8)])]
    {
      var n := BytesPerLine(r.width, depth8);
      ghost var line := sock.Unread()[..n];
      var start := sock.RQshiftView(n);
      var curY := r.y + (r.height - lines);
      var pixels;
      if depth8 {
        pixels := Spread(sock.rQ[start..start + n]);
      } else {
        MakeOpaque(sock, start, r.width);
        assert LinePixels(r.width, false, line) == Opaque(line);
        pixels := sock.rQ[start..start + n];
      }
      display.BlitImage(r.x, curY, r.width, 1, pixels);
    }

    /** The lines that have arrived are drawn; `false` means that more must come.  The
        receive queue, this object and the display end as `Decoded` says. */
    method DecodeRect(r: Rect, sock: Queue, display: Recorder, depth8: bool) returns (done: bool)
      requires sock.Valid()
      modifies this, sock, sock.rQ, display
      ensures sock.Valid() && sock.rQ == old(sock.rQ)
      ensures var p := Decoded(r, depth8, old(lines), old(sock.Unread()));
              done == (p.status == Finished) && State(lines) == p.state && sock.Unread() == p.rest
              && display.calls == old(display.calls) + p.calls
    {
      hide Run, LinePixels, LineOf;
      LinesSteady(r, depth8);
      ghost var units := Lines(r, depth8);
      ghost var goal := Decoded(r, depth8, lines, sock.Unread());
      AfterNothing(goal);
      if r.width == 0 || r.height == 0 {
        Stops(units, goal, [], State(lines), sock.Unread());
        return true;
      }
      if lines == 0 {
        lines := r.height;
      }
      ghost var calls: seq<Call> := [];
      while lines > 0
        invariant sock.Valid() && sock.rQ == old(sock.rQ)
        invariant display.calls == old(display.calls) + calls
        invariant goal == After(calls, Run(units, State(lines), sock.Unread()))
        decreases lines
      {
        var wait := sock.RQwait(BytesPerLine(r.width, depth8), 0);
        if wait {
          Stops(units, goal, calls, State(lines), sock.Unread());
          return false;
        }
        Advances(units, goal, calls, State(lines), sock.Unread());
        calls := calls + LineStep(r, depth8, State(lines), sock.Unread()).calls;
        DrawLine(r, depth8, sock, display);
        lines := lines - 1;
      }
      Stops(units, goal, calls, State(lines), sock.Unread());
      return true;
    }
  }

  // ----- a rectangle that arrives in messages ------------------------------------------------------

  /** Lines to go, unread bytes and calls made are as `p` says. */
  predicate Reached(p: Progress<State>, done: bool, lines: nat, unread: seq<Byte>, calls: seq<Call>) {
    p == Progress(if done then Finished else Waiting, State(lines), unread, calls)
  }

  lemma FirstReached(r: Rect, depth8: bool, lines: nat, input: seq<Byte>)
    ensures var p := Decoded(r, depth8, lines, input);
            Reached(p, p.status == Finished, p.state.lines, p.rest, p.calls)
  {
    LinesSteady(r, depth8);
    if r.width > 0 && r.height > 0 {
      RestsOrWaits(r, depth8, Entry(r, lines), input);
    }
  }

  /** One more message: a waiting decoder is entered again, a finished one is not. */
  lemma ReachedMore(r: Rect, depth8: bool, lines: nat, all: seq<Byte>, m: seq<Byte>, done: bool, now: nat,
                    unread: seq<Byte>,
                    calls: seq<Call>)
    requires Reached(Decoded(r, depth8, lines, all), done, now, unread, calls)
    ensures Decoded(r, depth8, lines, all + m)
         == if done then Progress(Finished, State(now), unread + m, calls)
            else After(calls, Decoded(r, depth8, now, unread + m))
  {
    LinesSteady(r, depth8);
    Resumes(Lines(r, depth8), Entry(r, lines), all, m);
    if r.width > 0 && r.height > 0 {
      RestsOrWaits(r, depth8, Entry(r, lines), all);
    }
  }

  /** What remains unread is no longer than what came. */
  lemma NoLonger(r: Rect, depth8: bool, lines: nat, all: seq<Byte>)
    ensures |Decoded(r, depth8, lines, all).rest| <= |all|
  {
    LinesSteady(r, depth8);
    RestIsSuffix(Lines(r, depth8), Entry(r, lines), all);
  }

  /** The connection delivers messages one by one and the decoder is entered before the
      first and after each one until the rectangle is complete.  Calls, state and unread
      bytes are those of all bytes being there at once. */
  method ReceiveRect(r: Rect, decoder: RawDecoder, sock: Queue, display: Recorder, depth8: bool,
                     messages: seq<seq<Byte>>)
    returns (done: bool, overflow: bool)
    requires sock.Valid()
    modifies decoder, sock, sock.rQ, display
    ensures !overflow ==>
              sock.Valid()
              && |display.calls| >= |old(display.calls)| && display.calls[..|old(display.calls)|] == old(display.calls)
              && Reached(Decoded(r, depth8, old(decoder.lines), old(sock.Unread()) + Concat(messages)), done,
                         decoder.lines, sock.Unread(), display.calls[|old(display.calls)|..])
    ensures overflow ==> |old(sock.Unread())| + |Concat(messages)| > MAX_RQ_GROW_SIZE
  {
    hide Run, Decoded;
    ghost var lines, first, before := decoder.lines, sock.Unread(), display.calls;
    FirstReached(r, depth8, lines, first);
    done := decoder.DecodeRect(r, sock, display, depth8);
    overflow := false;
    ghost var all, calls := first, Decoded(r, depth8, lines, first).calls;
    for i := 0 to |messages|
      invariant sock.Valid() && (sock.rQ == old(sock.rQ) || fresh(sock.rQ))
      invariant all + Concat(messages[i..]) == first + Concat(messages) && display.calls == before + calls
      invariant Reached(Decoded(r, depth8, lines, all), done, decoder.lines, sock.Unread(), calls)
    {
      var m := messages[i];
      ReachedMore(r, depth8, lines, all, m, done, decoder.lines, sock.Unread(), calls);
      FirstReached(r, depth8, decoder.lines, sock.Unread() + m);
      ghost var more := Decoded(r, depth8, decoder.lines, sock.Unread() + m).calls;
      ConcatNext(all, messages, i);
      NoLonger(r, depth8, lines, all);
      var ok, _ := sock.RecvMessage(m);
      if !ok {
        return done, true;
      }
      all := all + m;
      if !done {
        done := decoder.DecodeRect(r, sock, display, depth8);
        calls := calls + more;
      }
    }
    assert messages[|messages|..] == [] && all + [] == all;
  }

  // ----- what is drawn -----------------------------------------------------------------------------

  lemma LineInside(lines: nat, n: nat, k: nat)
    requires k < lines
    ensures 0 <= k * n <= (k + 1) * n <= lines * n && (k + 1) * n == k * n + n && (lines - 1) * n + n == lines * n
  {
    MulMono(k + 1, lines, n);
  }

  /** Line `k` of a body of `lines` lines. */
  ghost function LineCall(r: Rect, depth8: bool, lines: nat, body: seq<Byte>, k: nat): Call
    requires k < lines && |body| >= lines * BytesPerLine(r.width, depth8)
  {
    var n := BytesPerLine(r.width, depth8);
    LineInside(lines, n, k);
    LineOf(r, depth8, lines - k, body[k * n..(k + 1) * n])
  }

  lemma LineShift(r: Rect, depth8: bool, lines: nat, body: seq<Byte>, k: nat)
    requires 0 < k < lines && |body| >= lines * BytesPerLine(r.width, depth8)
    ensures BytesPerLine(r.width, depth8) <= |body|
    ensures |body| - BytesPerLine(r.width, depth8) >= (lines - 1) * BytesPerLine(r.width, depth8)
    ensures LineCall(r, depth8, lines - 1, body[BytesPerLine(r.width, depth8)..], k - 1)
         == LineCall(r, depth8, lines, body, k)
  {
    var n := BytesPerLine(r.width, depth8);
    LineInside(lines, n, k);
    LineInside(lines, n, 0);
    LineInside(lines - 1, n, k - 1);
    assert (k - 1) * n + n == k * n;
    assert body[n..][(k - 1) * n..k * n] == body[k * n..(k + 1) * n];
  }

  /** A whole rectangle body draws one opaque line after the other, from the top. */
  lemma {:induction false} WholeBody(r: Rect, depth8: bool, lines: nat, body: seq<Byte>)
    requires r.width > 0 && r.height > 0 && lines <= r.height && |body| >= lines * BytesPerLine(r.width, depth8)
    ensures Steady(Lines(r, depth8))
    ensures var p := Run(Lines(r, depth8), State(lines), body);
            && p.status == Finished && p.state == State(0) && p.rest == body[lines * BytesPerLine(r.width, depth8)..]
            && |p.calls| == lines && forall k :: 0 <= k < lines ==> p.calls[k] == LineCall(r, depth8, lines, body, k)
    decreases lines
  {
    LinesSteady(r, depth8);
    hide LineOf;
    var n := BytesPerLine(r.width, depth8);
    if lines > 0 {
      LineInside(lines, n, 0);
      assert SteadyAt(Lines(r, depth8), State(lines), body, []);
      WholeBody(r, depth8, lines - 1, body[n..]);
      var p, q := Run(Lines(r, depth8), State(lines), body), Run(Lines(r, depth8), State(lines - 1), body[n..]);
      assert body[n..][(lines - 1) * n..] == body[lines * n..];
      assert p.calls == [LineOf(r, depth8, lines, body[..n])] + q.calls;
      forall k | 0 <= k < lines ensures p.calls[k] == LineCall(r, depth8, lines, body, k) {
        if k > 0 {
          LineShift(r, depth8, lines, body, k);
        } else {
          assert body[..n] == body[0 * n..1 * n];
        }
      }
    }
  }

  /** A rectangle whose bytes are there from its first line on is drawn line by line from the
      top, line `k` of its bytes in row `k`, and exactly its bytes are taken. */
  lemma LinesBack(r: Rect, depth8: bool, body: seq<Byte>, more: seq<Byte>, k: nat)
    requires r.width > 0 && k < r.height && |body| == r.height * BytesPerLine(r.width, depth8)
    ensures var n, p := BytesPerLine(r.width, depth8), Decoded(r, depth8, 0, body + more);
            && p.status == Finished && p.rest == more && |p.calls| == r.height && (k + 1) * n <= |body|
            && p.calls[k] == Blit(r.x, r.y + k, r.width, 1, LinePixels(r.width, depth8, body[k * n..(k + 1) * n]))
  {
    hide Run, LinePixels;
    var n := BytesPerLine(r.width, depth8);
    WholeBody(r, depth8, r.height, body + more);
    LineInside(r.height, n, k);
    assert (body + more)[r.height * n..] == more;
    assert (body + more)[k * n..(k + 1) * n] == body[k * n..(k + 1) * n];
  }
}
