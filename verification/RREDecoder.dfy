/** RRE encoding (section 7.7.3 of RFC 6143; pond-sec/app/static/novnc/core/decoders/rre.js). */
module RREDecoding {
  import opened Bytes
  import opened Resume
  import opened Websock
  import opened Screen
  import opened Tiling

  // ----- the decoder as units -------------------------------------------------------------------

  /** `Header`: the subrectangle count and the background are still to come. */
  datatype State = Header | Body(left: nat)

  function SubrectCall(r: Rect, unit: seq<Byte>): Call
    requires |unit| == 12
  {
    Fill(r.x + BigEndian(unit[4..6]), r.y + BigEndian(unit[6..8]), BigEndian(unit[8..10]), BigEndian(unit[10..12]),
         unit[..4])
  }

  function SubrectStep(r: Rect, s: State, input: seq<Byte>): Move<State> {
    match s
    case Header =>
      if |input| < 8 then Wait
      else Take(8, Body(BigEndian(input[..4])), [Fill(r.x, r.y, r.width, r.height, input[4..8])])
    case Body(left) =>
      if left == 0 then Done(s, [])
      else if |input| < 12 then Wait
      else Take(12, Body(left - 1), [SubrectCall(r, input[..12])])
  }

  function Units(r: Rect): (State, seq<Byte>) -> Move<State> {
    (s, input) => SubrectStep(r, s, input)
  }

  lemma UnitsSteady(r: Rect)
    ensures Steady(Units(r))
  {
    forall s, a, b ensures SteadyAt(Units(r), s, a, b) {
      if |a| >= 8 {
        assert (a + b)[..4] == a[..4] && (a + b)[4..8] == a[4..8];
      }
      if |a| >= 12 {
        assert (a + b)[..12] == a[..12];
      }
    }
  }

  /** The count field holds zero between rectangles. */
  function Entry(subrects: nat): State {
    if subrects == 0 then Header else Body(subrects)
  }

  function Field(s: State): nat {
    match s
    case Header => 0
    case Body(left) => left
  }

  ghost function Decoded(r: Rect, subrects: nat, input: seq<Byte>): Progress<State> {
    UnitsSteady(r);
    Run(Units(r), Entry(subrects), input)
  }

  lemma {:induction false} RestsOrWaits(r: Rect, s: State, input: seq<Byte>)
    requires Steady(Units(r))
    ensures var p := Run(Units(r), s, input);
            && p.status != Failed
            && (p.status == Waiting ==> Entry(Field(p.state)) == p.state)
            && (p.status == Finished ==> p.state == Body(0))
    decreases |input|
  {
    assert SteadyAt(Units(r), s, input, []);
    match SubrectStep(r, s, input)
    case Take(n, next, calls) => RestsOrWaits(r, next, input[n..]);
    case _ =>
  }

  class RREDecoder {
    var subrects: nat

    constructor ()
      ensures subrects == 0
    {
      subrects := 0;
    }

    method ReadHeader(r: Rect, sock: Queue, display: Recorder)
      requires sock.Valid() && |sock.Unread()| >= 8
      modifies this, sock`rQi, display
      ensures sock.Valid() && sock.Unread() == old(sock.Unread())[8..]
      ensures subrects == BigEndian(old(sock.Unread())[..4])
      ensures display.calls == old(display.calls) + [Fill(r.x, r.y, r.width, r.height, old(sock.Unread())[4..8])]
    {
      subrects := sock.RQshift32();
      var color := sock.RQshiftBytes(4);
      assert old(sock.Unread())[4..][..4] == old(sock.Unread())[4..8];
      display.FillRect(r.x, r.y, r.width, r.height, color);
    }

    method ReadSubrect(r: Rect, sock: Queue, display: Recorder)
      requires sock.Valid() && |sock.Unread()| >= 12
      modifies sock`rQi, display
      ensures sock.Valid() && sock.Unread() == old(sock.Unread())[12..]
      ensures display.calls == old(display.calls) + [SubrectCall(r, old(sock.Unread())[..12])]
    {
      ghost var unit := sock.Unread()[..12];
      var color := sock.RQshiftBytes(4);
      var sx := sock.RQshift16();
      var sy := sock.RQshift16();
      var swidth := sock.RQshift16();
      var sheight := sock.RQshift16();
      assert unit[..4] == color;
      assert unit[4..6] == old(sock.Unread())[4..][..2];
      assert unit[6..8] == old(sock.Unread())[4..][2..][..2];
      assert unit[8..10] == old(sock.Unread())[4..][2..][2..][..2];
      assert unit[10..12] == old(sock.Unread())[4..][2..][2..][2..][..2];
      display.FillRect(r.x + sx, r.y + sy, swidth, sheight, color);
    }

    method DecodeRect(r: Rect, sock: Queue, display: Recorder) returns (done: bool)
      requires sock.Valid()
      modifies this, sock`rQi, display
      ensures sock.Valid()
      ensures var p := Decoded(r, old(subrects), old(sock.Unread()));
              done == (p.status == Finished) && subrects == Field(p.state) && sock.Unread() == p.rest
              && display.calls == old(display.calls) + p.calls
    {
      hide Run, SubrectCall;
      UnitsSteady(r);
      ghost var units := Units(r);
      ghost var goal := Decoded(r, subrects, sock.Unread());
      ghost var calls: seq<Call> := [];
      AfterNothing(goal);
      if subrects == 0 {
        var wait := sock.RQwait(8, 0);
        if wait {
          Stops(units, goal, calls, Header, sock.Unread());
          return false;
        }
        Advances(units, goal, calls, Header, sock.Unread());
        calls := calls + SubrectStep(r, Header, sock.Unread()).calls;
        ReadHeader(r, sock, display);
      }
      while subrects > 0
        invariant sock.Valid()
        invariant display.calls == old(display.calls) + calls
        invariant goal == After(calls, Run(units, Body(subrects), sock.Unread()))
        decreases subrects
      {
        var wait := sock.RQwait(12, 0);
        if wait {
          Stops(units, goal, calls, Body(subrects), sock.Unread());
          return false;
        }
        Advances(units, goal, calls, Body(subrects), sock.Unread());
        calls := calls + SubrectStep(r, Body(subrects), sock.Unread()).calls;
        ReadSubrect(r, sock, display);
        subrects := subrects - 1;
      }
      Stops(units, goal, calls, Body(subrects), sock.Unread());
      return true;
    }
  }

  // ----- a rectangle that arrives in messages -----------------------------------------------------

  predicate Reached(p: Progress<State>, done: bool, subrects: nat, unread: seq<Byte>, calls: seq<Call>) {
    p == Progress(if done then Finished else Waiting, p.state, unread, calls) && Field(p.state) == subrects
    && (if done then p.state == Body(0) else p.state == Entry(subrects))
  }

  lemma FirstReached(r: Rect, subrects: nat, input: seq<Byte>)
    ensures var p := Decoded(r, subrects, input); Reached(p, p.status == Finished, Field(p.state), p.rest, p.calls)
  {
    UnitsSteady(r);
    RestsOrWaits(r, Entry(subrects), input);
  }

  lemma ReachedMore(r: Rect, subrects: nat, all: seq<Byte>, m: seq<Byte>, done: bool, now: nat, unread: seq<Byte>,
                    calls: seq<Call>)
    requires Reached(Decoded(r, subrects, all), done, now, unread, calls)
    ensures Decoded(r, subrects, all + m)
         == if done then Progress(Finished, Body(0), unread + m, calls) else After(calls, Decoded(r, now, unread + m))
  {
    UnitsSteady(r);
    Resumes(Units(r), Entry(subrects), all, m);
  }

  /** What remains unread is no longer than what came. */
  lemma NoLonger(r: Rect, subrects: nat, all: seq<Byte>)
    ensures |Decoded(r, subrects, all).rest| <= |all|
  {
    UnitsSteady(r);
    RestIsSuffix(Units(r), Entry(subrects), all);
  }

  /** However the bytes are cut into messages, calls, state and unread bytes end as if all
      bytes had been there at once. */
  method ReceiveRect(r: Rect, decoder: RREDecoder, sock: Queue, display: Recorder, messages: seq<seq<Byte>>)
    returns (done: bool, overflow: bool)
    requires sock.Valid()
    modifies decoder, sock, sock.rQ, display
    ensures !overflow ==>
              sock.Valid()
              && |display.calls| >= |old(display.calls)| && display.calls[..|old(display.calls)|] == old(display.calls)
              && Reached(Decoded(r, old(decoder.subrects), old(sock.Unread()) + Concat(messages)), done,
                         decoder.subrects, sock.Unread(), display.calls[|old(display.calls)|..])
    ensures overflow ==> |old(sock.Unread())| + |Concat(messages)| > MAX_RQ_GROW_SIZE
  {
    hide Run, Decoded;
    ghost var subrects, first, before := decoder.subrects, sock.Unread(), display.calls;
    FirstReached(r, subrects, first);
    done := decoder.DecodeRect(r, sock, display);
    overflow := false;
    ghost var all, calls := first, Decoded(r, subrects, first).calls;
    for i := 0 to |messages|
      invariant sock.Valid() && (sock.rQ == old(sock.rQ) || fresh(sock.rQ))
      invariant all + Concat(messages[i..]) == first + Concat(messages) && display.calls == before + calls
      invariant Reached(Decoded(r, subrects, all), done, decoder.subrects, sock.Unread(), calls)
    {
      var m := messages[i];
      ReachedMore(r, subrects, all, m, done, decoder.subrects, sock.Unread(), calls);
      FirstReached(r, decoder.subrects, sock.Unread() + m);
      ghost var more := Decoded(r, decoder.subrects, sock.Unread() + m).calls;
      ConcatNext(all, messages, i);
      NoLonger(r, subrects, all);
      var ok, _ := sock.RecvMessage(m);
      if !ok {
        return done, true;
      }
      all := all + m;
      if !done {
        done := decoder.DecodeRect(r, sock, display);
        calls := calls + more;
      }
    }
    assert messages[|messages|..] == [] && all + [] == all;
  }

  // ----- decoding undoes encoding -------------------------------------------------------------------

  datatype Subrect = Subrect(color: seq<Byte>, x: nat, y: nat, width: nat, height: nat)

  predicate SubrectOk(b: Subrect) {
    |b.color| == 4 && b.x < 0x1_0000 && b.y < 0x1_0000 && b.width < 0x1_0000 && b.height < 0x1_0000
  }

  lemma TwoBytes()
    ensures Power256(2) == 0x1_0000 && Power256(4) == 0x1_0000_0000
  {
    assert Power256(1) == 256 && Power256(2) == 0x1_0000 && Power256(3) == 0x100_0000;
  }

  function EncodeSubrect(b: Subrect): (bytes: seq<Byte>)
    requires SubrectOk(b)
    ensures |bytes| == 12
  {
    TwoBytes();
    b.color + InBytes(b.x, 2) + InBytes(b.y, 2) + InBytes(b.width, 2) + InBytes(b.height, 2)
  }

  function EncodeSubrects(subs: seq<Subrect>): seq<Byte>
    requires forall b <- subs :: SubrectOk(b)
  {
    if subs == [] then [] else EncodeSubrect(subs[0]) + EncodeSubrects(subs[1..])
  }

  /** A rectangle body of RFC 6143: count, background, subrectangles. */
  function Encode(background: seq<Byte>, subs: seq<Subrect>): seq<Byte>
    requires |background| == 4 && |subs| < 0x1_0000_0000 && forall b <- subs :: SubrectOk(b)
  {
    TwoBytes();
    InBytes(|subs|, 4) + background + EncodeSubrects(subs)
  }

  function Painted(r: Rect, subs: seq<Subrect>): seq<Call> {
    seq(|subs|, i requires 0 <= i < |subs| => Fill(r.x + subs[i].x, r.y + subs[i].y, subs[i].width, subs[i].height,
                                                   subs[i].color))
  }

  lemma SubrectBack(r: Rect, b: Subrect)
    requires SubrectOk(b)
    ensures SubrectCall(r, EncodeSubrect(b)) == Fill(r.x + b.x, r.y + b.y, b.width, b.height, b.color)
  {
    TwoBytes();
    var e := EncodeSubrect(b);
    assert e[..4] == b.color && e[4..6] == InBytes(b.x, 2) && e[6..8] == InBytes(b.y, 2);
    assert e[8..10] == InBytes(b.width, 2) && e[10..12] == InBytes(b.height, 2);
    InBytesValue(b.x, 2);
    InBytesValue(b.y, 2);
    InBytesValue(b.width, 2);
    InBytesValue(b.height, 2);
  }

  lemma UnitBack(r: Rect, k: nat, b: Subrect, more: seq<Byte>)
    requires SubrectOk(b) && k > 0
    ensures SubrectStep(r, Body(k), EncodeSubrect(b) + more)
         == Take(12, Body(k - 1), [Fill(r.x + b.x, r.y + b.y, b.width, b.height, b.color)])
    ensures (EncodeSubrect(b) + more)[12..] == more
  {
    hide SubrectCall, EncodeSubrect;
    SubrectBack(r, b);
    assert (EncodeSubrect(b) + more)[..12] == EncodeSubrect(b);
  }

  lemma PaintedFirst(r: Rect, subs: seq<Subrect>)
    requires subs != []
    ensures var b := subs[0];
            Painted(r, subs) == [Fill(r.x + b.x, r.y + b.y, b.width, b.height, b.color)] + Painted(r, subs[1..])
  {
  }

  lemma {:induction false} BodyBack(r: Rect, subs: seq<Subrect>, more: seq<Byte>)
    requires Steady(Units(r)) && forall b <- subs :: SubrectOk(b)
    ensures Run(Units(r), Body(|subs|), EncodeSubrects(subs) + more)
         == Progress(Finished, Body(0), more, Painted(r, subs))
    decreases |subs|
  {
    var input := EncodeSubrects(subs) + more;
    if subs == [] {
      assert input == more;
    } else {
      var tail := EncodeSubrects(subs[1..]) + more;
      assert input == EncodeSubrect(subs[0]) + tail;
      UnitBack(r, |subs|, subs[0], tail);
      RunTakes(Units(r), Body(|subs|), input);
      PaintedFirst(r, subs);
      hide SubrectStep, EncodeSubrect, EncodeSubrects, Run, Painted;
      BodyBack(r, subs[1..], more);
    }
  }

  /** Decoding an encoded rectangle fills the background and then every subrectangle, in
      order and in place, and leaves exactly the bytes behind it. */
  lemma EncodeDecode(r: Rect, background: seq<Byte>, subs: seq<Subrect>, more: seq<Byte>)
    requires |background| == 4 && |subs| < 0x1_0000_0000 && forall b <- subs :: SubrectOk(b)
    ensures Decoded(r, 0, Encode(background, subs) + more)
         == Progress(Finished, Body(0), more, [Fill(r.x, r.y, r.width, r.height, background)] + Painted(r, subs))
  {
    UnitsSteady(r);
    TwoBytes();
    var input := Encode(background, subs) + more;
    assert SteadyAt(Units(r), Header, input, []);
    assert input[..4] == InBytes(|subs|, 4) && input[4..8] == background && input[8..] == EncodeSubrects(subs) + more;
    InBytesValue(|subs|, 4);
    BodyBack(r, subs, more);
  }
}
