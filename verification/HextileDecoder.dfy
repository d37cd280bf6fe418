/** Hextile encoding (section 7.7.4 of RFC 6143;
    pond-sec/app/static/novnc/core/decoders/hextile.js). */
module HextileDecoding {
  import opened Bytes
  import opened Resume
  import opened Websock
  import opened Screen
  import opened Arithmetic
  import opened Tiling

  const SIDE := 16

  // ----- painting a tile --------------------------------------------------------------------------

  function PaintByte(color: seq<Byte>, channel: nat): Byte
    requires |color| == 4
  {
    if channel < 3 then color[channel] else 255
  }

  function Plain(pixels: nat, color: seq<Byte>): (t: seq<Byte>)
    requires |color| == 4
    ensures |t| == pixels * 4
  {
    seq(pixels * 4, k requires 0 <= k < pixels * 4 => PaintByte(color, k % 4))
  }

  datatype Area = Area(x: nat, y: nat, width: nat, height: nat)

  /** The two coordinate bytes of a subrectangle. */
  function AreaOf(xy: Byte, wh: Byte): Area {
    Area(xy / 16, xy % 16, wh / 16 + 1, wh % 16 + 1)
  }

  predicate OnRow(q: nat, tw: nat, a: Area, j: nat) {
    j * tw + a.x <= q < j * tw + a.x + a.width
  }

  /** Pixel `q` of a tile `tw` wide is written by one of the rows up to `end`. */
  predicate Covered(q: nat, tw: nat, a: Area, end: nat) {
    exists j :: a.y <= j < end && OnRow(q, tw, a, j)
  }

  function Painted(tile: seq<Byte>, tw: nat, a: Area, color: seq<Byte>): (t: seq<Byte>)
    requires |color| == 4
    ensures |t| == |tile|
  {
    seq(|tile|, k requires 0 <= k < |tile| =>
      if Covered(k / 4, tw, a, a.y + a.height) then PaintByte(color, k % 4) else tile[k])
  }

  /** A subrectangle that fits into the tile paints exactly its columns and rows. */
  lemma PaintsItsArea(tile: seq<Byte>, tw: nat, a: Area, color: seq<Byte>, i: nat, j: nat, channel: nat)
    requires |color| == 4 && a.x + a.width <= tw && i < tw && channel < 4 && (j * tw + i) * 4 + channel < |tile|
    ensures Painted(tile, tw, a, color)[(j * tw + i) * 4 + channel]
         == (if a.x <= i < a.x + a.width && a.y <= j < a.y + a.height then PaintByte(color, channel)
             else tile[(j * tw + i) * 4 + channel])
  {
    var k := (j * tw + i) * 4 + channel;
    assert k / 4 == j * tw + i && k % 4 == channel;
    if a.x <= i < a.x + a.width && a.y <= j < a.y + a.height {
      assert OnRow(j * tw + i, tw, a, j);
    } else if Covered(k / 4, tw, a, a.y + a.height) {
      var row :| a.y <= row < a.y + a.height && OnRow(j * tw + i, tw, a, row);
      DivideUnique(j * tw + i, row, tw);
      DivideUnique(j * tw + i, j, tw);
    }
  }

  function PaintedUnit(tile: seq<Byte>, tw: nat, coloured: bool, foreground: seq<Byte>, unit: seq<Byte>): (t: seq<Byte>)
    requires |unit| == UnitSize(coloured) && (!coloured ==> |foreground| == 4)
    ensures |t| == |tile|
  {
    Painted(tile, tw, AreaOf(unit[|unit| - 2], unit[|unit| - 1]), if coloured then unit[..4] else foreground)
  }

  /** Subrectangles are painted one over the other, in order. */
  function PaintAll(tile: seq<Byte>, tw: nat, coloured: bool, foreground: seq<Byte>, data: seq<Byte>): (t: seq<Byte>)
    requires data != [] && !coloured ==> |foreground| == 4
    ensures |t| == |tile|
    decreases |data|
  {
    var n := UnitSize(coloured);
    if |data| < n then tile
    else PaintAll(PaintedUnit(tile, tw, coloured, foreground, data[..n]), tw, coloured, foreground, data[n..])
  }

  function UnitSize(coloured: bool): nat {
    if coloured then 6 else 2
  }

  // ----- the decoder as units -------------------------------------------------------------------------

  /** A colour is absent until one has been sent. */
  datatype State = State(left: nat, last: Byte, background: seq<Byte>, foreground: seq<Byte>)

  predicate Bit(sub: Byte, value: nat)
    requires value > 0
  {
    sub / value % 2 == 1
  }

  function Size(flag: bool, n: nat): nat {
    if flag then n else 0
  }

  /** Where the subrectangle count stands. */
  function CountAt(sub: Byte): nat {
    1 + Size(Bit(sub, 2), 4) + Size(Bit(sub, 4), 4)
  }

  /** The length of the tile, or more than there is when that is not known yet. */
  function Expected(t: Rect, input: seq<Byte>): nat
    requires input != []
  {
    var sub := input[0];
    if Bit(sub, 1) then 1 + t.width * t.height * 4
    else if !Bit(sub, 8) then CountAt(sub)
    else if |input| < CountAt(sub) + 1 then CountAt(sub) + 1
    else CountAt(sub) + 1 + input[CountAt(sub)] * UnitSize(Bit(sub, 16))
  }

  function NewBackground(s: State, tile: seq<Byte>): seq<Byte>
    requires tile != [] && |tile| >= CountAt(tile[0])
  {
    if Bit(tile[0], 2) then tile[1..5] else s.background
  }

  function NewForeground(s: State, tile: seq<Byte>): seq<Byte>
    requires tile != [] && |tile| >= CountAt(tile[0])
  {
    if Bit(tile[0], 4) then tile[CountAt(tile[0]) - 4..CountAt(tile[0])] else s.foreground
  }

  function SubrectData(tile: seq<Byte>): seq<Byte>
    requires tile != [] && |tile| >= CountAt(tile[0])
  {
    if Bit(tile[0], 8) && |tile| > CountAt(tile[0]) then tile[CountAt(tile[0]) + 1..] else []
  }

  /** A tile whose bytes are all there. */
  function TileMove(t: Rect, s: State, tile: seq<Byte>): Move<State>
    requires s.left > 0 && tile != [] && |tile| == Expected(t, tile)
  {
    var sub := tile[0];
    var rest := s.(left := s.left - 1, last := sub);
    if sub == 0 then
      if Bit(s.last, 1) then Take(1, rest, [])
      else if |s.background| != 4 then Fail
      else Take(1, rest, [Fill(t.x, t.y, t.width, t.height, s.background)])
    else if Bit(sub, 1) then Take(|tile|, rest, [Blit(t.x, t.y, t.width, t.height, Opaque(tile[1..]))])
    else
      var background, foreground, data := NewBackground(s, tile), NewForeground(s, tile), SubrectData(tile);
      if |background| != 4 || (data != [] && !Bit(sub, 16) && |foreground| != 4) then Fail
      else
        var pixels := PaintAll(Plain(t.width * t.height, background), t.width, Bit(sub, 16), foreground, data);
        Take(|tile|, rest.(background := background, foreground := foreground),
             [Blit(t.x, t.y, t.width, t.height, pixels)])
  }

  function TileStep(r: Rect, s: State, input: seq<Byte>): Move<State> {
    if s.left == 0 || s.left > TotalTiles(r, SIDE) then Done(s, [])
    else if input == [] then Wait
    else if input[0] > 30 then Fail
    else
      var t := TileAt(r, SIDE, TotalTiles(r, SIDE) - s.left);
      if |input| < Expected(t, input) then Wait
      else
        ExpectedStays(t, input);
        TileMove(t, s, input[..Expected(t, input)])
  }

  lemma ExpectedStays(t: Rect, input: seq<Byte>)
    requires input != [] && |input| >= Expected(t, input)
    ensures Expected(t, input) > 0 && Expected(t, input[..Expected(t, input)]) == Expected(t, input)
    ensures forall more :: Expected(t, input + more) == Expected(t, input)
  {
  }

  function Tiles(r: Rect): (State, seq<Byte>) -> Move<State> {
    (s, input) => TileStep(r, s, input)
  }

  lemma TilesSteady(r: Rect)
    ensures Steady(Tiles(r))
  {
    forall s, a, b ensures SteadyAt(Tiles(r), s, a, b) {
      if s.left > 0 && s.left <= TotalTiles(r, SIDE) && a != [] && a[0] <= 30 {
        var t := TileAt(r, SIDE, TotalTiles(r, SIDE) - s.left);
        if |a| >= Expected(t, a) {
          ExpectedStays(t, a);
          var n := Expected(t, a);
          assert Expected(t, a + b) == n;
          assert (a + b)[..n] == a[..n];
          TakesTile(t, s, a[..n]);
        }
      }
    }
  }

  lemma TakesTile(t: Rect, s: State, tile: seq<Byte>)
    requires s.left > 0 && tile != [] && |tile| == Expected(t, tile)
    ensures TileMove(t, s, tile).Take? || TileMove(t, s, tile).Fail?
    ensures TileMove(t, s, tile).Take? ==>
            TileMove(t, s, tile).n == |tile| && TileMove(t, s, tile).next.left == s.left - 1
  {
    assert tile[0] == 0 ==> Expected(t, tile) == 1;
  }

  lemma AtRest(r: Rect, s: State, input: seq<Byte>)
    requires s.left == 0
    ensures TileStep(r, s, input) == Done(s, [])
  {
  }

  /** A decoder at rest begins the rectangle. */
  function Entry(r: Rect, s: State): State {
    if s.left == 0 then s.(left := TotalTiles(r, SIDE)) else s
  }

  ghost function Decoded(r: Rect, s: State, input: seq<Byte>): Progress<State> {
    TilesSteady(r);
    Run(Tiles(r), Entry(r, s), input)
  }

  lemma {:induction false} RestsOrWaits(r: Rect, s: State, input: seq<Byte>)
    requires Steady(Tiles(r)) && s.left <= TotalTiles(r, SIDE)
    ensures var p := Run(Tiles(r), s, input);
            && p.state.left <= TotalTiles(r, SIDE)
            && (p.status == Waiting ==> p.state.left > 0)
            && (p.status == Finished ==> p.state.left == 0)
    decreases |input|
  {
    assert SteadyAt(Tiles(r), s, input, []);
    var move := TileStep(r, s, input);
    if move.Take? {
      var t := TileAt(r, SIDE, TotalTiles(r, SIDE) - s.left);
      ExpectedStays(t, input);
      TakesTile(t, s, input[..Expected(t, input)]);
      hide TileMove;
      RestsOrWaits(r, move.next, input[move.n..]);
    }
  }

  // ----- the decoder object ---------------------------------------------------------------------------

  const TILE_BUFFER := 16 * 16 * 4

  class HextileDecoder {
    var tiles: nat
    var tilesX: nat
    var tilesY: nat
    var totalTiles: nat
    var lastsubencoding: Byte
    var background: seq<Byte>
    var foreground: seq<Byte>
    const tileBuffer: array<Byte>
    var tileX: int
    var tileY: int
    var tileW: nat
    var tileH: nat

    constructor ()
      ensures tiles == 0 && lastsubencoding == 0 && background == [] && foreground == []
      ensures fresh(tileBuffer) && tileBuffer.Length == TILE_BUFFER
    {
      tiles, tilesX, tilesY, totalTiles, lastsubencoding := 0, 0, 0, 0, 0;
      background, foreground := [], [];
      tileBuffer := new Byte[TILE_BUFFER](_ => 0);
      tileX, tileY, tileW, tileH := 0, 0, 0, 0;
    }

    ghost function Abstract(): State
      reads this
    {
      State(tiles, lastsubencoding, background, foreground)
    }

    /** Inside a rectangle the tile counts are those of that rectangle. */
    ghost predicate Valid(r: Rect)
      reads this
    {
      && tileBuffer.Length == TILE_BUFFER
      && (tiles > 0 ==> tilesX == Across(r.width, SIDE) && totalTiles == TotalTiles(r, SIDE) && tiles <= totalTiles)
    }

    // ----- one tile ------------------------------------------------------------------------------

    method StartTile(t: Rect, color: seq<Byte>)
      requires |color| == 4 && t.width <= 16 && t.height <= 16 && tileBuffer.Length == TILE_BUFFER
      modifies `tileX, `tileY, `tileW, `tileH, tileBuffer
      ensures tileX == t.x && tileY == t.y && tileW == t.width && tileH == t.height
      ensures t.width * t.height * 4 <= TILE_BUFFER
      ensures tileBuffer[..t.width * t.height * 4] == Plain(t.width * t.height, color)
    {
      tileX, tileY, tileW, tileH := t.x, t.y, t.width, t.height;
      TileFits(t.width, t.height);
      FillPlain(t.width * t.height, color);
    }

    method FillPlain(n: nat, color: seq<Byte>)
      requires |color| == 4 && n * 4 <= TILE_BUFFER == tileBuffer.Length
      modifies tileBuffer
      ensures tileBuffer[..n * 4] == Plain(n, color)
    {
      for i := 0 to n
        invariant forall k :: 0 <= k < i * 4 ==> tileBuffer[k] == PaintByte(color, k % 4)
      {
        tileBuffer[i * 4] := color[0];
        tileBuffer[i * 4 + 1] := color[1];
        tileBuffer[i * 4 + 2] := color[2];
        tileBuffer[i * 4 + 3] := 255;
      }
      assert tileBuffer[..n * 4] == Plain(n, color);
    }

    /** One row of a subrectangle; writes behind the buffer are dropped. */
    method PaintRow(a: Area, j: nat, color: seq<Byte>)
      requires |color| == 4 && tileBuffer.Length == TILE_BUFFER
      modifies tileBuffer
      ensures forall k :: 0 <= k < TILE_BUFFER ==>
                tileBuffer[k] == if OnRow(k / 4, tileW, a, j) then PaintByte(color, k % 4) else old(tileBuffer[k])
    {
      var base := j * tileW;
      for i := a.x to a.x + a.width
        invariant forall k :: 0 <= k < TILE_BUFFER ==>
                    tileBuffer[k] == if base + a.x <= k / 4 < base + i then PaintByte(color, k % 4)
                    else old(tileBuffer[k])
      {
        var p := (i + base) * 4;
        if p < TILE_BUFFER {
          tileBuffer[p] := color[0];
          tileBuffer[p + 1] := color[1];
          tileBuffer[p + 2] := color[2];
          tileBuffer[p + 3] := 255;
        }
      }
    }

    method SubTile(a: Area, color: seq<Byte>)
      requires |color| == 4 && tileBuffer.Length == TILE_BUFFER
      modifies tileBuffer
      ensures forall n :: 0 <= n <= TILE_BUFFER ==> tileBuffer[..n] == Painted(old(tileBuffer[..n]), tileW, a, color)
    {
      for j := a.y to a.y + a.height
        invariant forall k :: 0 <= k < TILE_BUFFER ==>
                    tileBuffer[k] == if Covered(k / 4, tileW, a, j) then PaintByte(color, k % 4) else old(tileBuffer[k])
      {
        ghost var before := tileBuffer[..];
        PaintRow(a, j, color);
        forall k | 0 <= k < TILE_BUFFER
          ensures tileBuffer[k] == if Covered(k / 4, tileW, a, j + 1) then PaintByte(color, k % 4)
                  else old(tileBuffer[k])
        {
          CoveredNext(k / 4, tileW, a, j);
          assert before[k] == if Covered(k / 4, tileW, a, j) then PaintByte(color, k % 4) else old(tileBuffer[k]);
        }
      }
    }

    method FinishTile(display: Recorder)
      requires tileBuffer.Length == TILE_BUFFER && tileW * tileH * 4 <= TILE_BUFFER
      modifies display
      ensures display.calls == old(display.calls) + [Blit(tileX, tileY, tileW, tileH, tileBuffer[..tileW * tileH * 4])]
    {
      display.BlitImage(tileX, tileY, tileW, tileH, tileBuffer[..tileW * tileH * 4]);
    }

    /** One subrectangle is read off the queue and painted. */
    method ReadSubrect(sock: Queue, coloured: bool, ghost n: nat)
      requires sock.Valid() && UnitSize(coloured) <= |sock.Unread()| && (!coloured ==> |foreground| == 4)
      requires tileBuffer.Length == TILE_BUFFER && n <= TILE_BUFFER && tileBuffer != sock.rQ
      modifies sock`rQi, tileBuffer
      ensures sock.Valid() && sock.Unread() == old(sock.Unread())[UnitSize(coloured)..]
      ensures tileBuffer[..n]
           == PaintedUnit(old(tileBuffer[..n]), tileW, coloured, foreground, old(sock.Unread())[..UnitSize(coloured)])
    {
      hide Painted;
      ghost var unit := sock.Unread()[..UnitSize(coloured)];
      var color;
      if coloured {
        color := sock.RQshiftBytes(4);
        assert unit[..4] == color;
      } else {
        color := foreground;
      }
      var xy := sock.RQshift8();
      var wh := sock.RQshift8();
      assert xy == unit[|unit| - 2] && wh == unit[|unit| - 1];
      SubTile(AreaOf(xy, wh), color);
    }

    /** All subrectangles of a tile, in order; `data` is their bytes. */
    method PaintSubrects(sock: Queue, subrects: nat, coloured: bool, ghost data: seq<Byte>, ghost n: nat)
      requires sock.Valid() && |data| == subrects * UnitSize(coloured) && data <= sock.Unread()
      requires data != [] && !coloured ==> |foreground| == 4
      requires tileBuffer.Length == TILE_BUFFER && n <= TILE_BUFFER && tileBuffer != sock.rQ
      modifies sock`rQi, tileBuffer
      ensures sock.Valid() && sock.Unread() == old(sock.Unread())[|data|..]
      ensures tileBuffer[..n] == PaintAll(old(tileBuffer[..n]), tileW, coloured, foreground, data)
    {
      hide PaintedUnit, PaintAll;
      ghost var rest, tail := data, sock.Unread()[|data|..];
      ghost var goal := PaintAll(tileBuffer[..n], tileW, coloured, foreground, data);
      for s := 0 to subrects
        invariant sock.Valid() && sock.Unread() == rest + tail && |rest| == (subrects - s) * UnitSize(coloured)
        invariant rest != [] && !coloured ==> |foreground| == 4
        invariant goal == PaintAll(tileBuffer[..n], tileW, coloured, foreground, rest)
      {
        UnitOff(subrects - s, UnitSize(coloured));
        PaintFirst(tileBuffer[..n], tileW, coloured, foreground, rest);
        assert sock.Unread()[..UnitSize(coloured)] == rest[..UnitSize(coloured)];
        ReadSubrect(sock, coloured, n);
        rest := rest[UnitSize(coloured)..];
      }
      PaintNothing(tileBuffer[..n], tileW, coloured, foreground);
    }

    // ----- whole tiles -----------------------------------------------------------------------------

    /** Subencoding zero: the background again, unless the tile before was raw. */
    method BlankTile(t: Rect, sock: Queue, display: Recorder) returns (ok: bool)
      requires sock.Valid() && sock.Unread() != [] && sock.Unread()[0] == 0 && tiles > 0
      modifies `lastsubencoding, `tiles, sock`rQi, display
      ensures Drawn(TileMove(t, old(Abstract()), [0]), ok, Abstract(), old(display.calls), display.calls)
      ensures ok ==> sock.Valid() && sock.Unread() == old(sock.Unread())[1..]
      ensures tiles == old(tiles) - if ok then 1 else 0
    {
      var sub := sock.RQshift8();
      if !Bit(lastsubencoding, 1) {
        if |background| != 4 {
          return false;
        }
        display.FillRect(t.x, t.y, t.width, t.height, background);
      }
      lastsubencoding := 0;
      tiles := tiles - 1;
      return true;
    }

    /** Raw subencoding: the alpha bytes are set where the pixels lie in the queue. */
    method RawTile(t: Rect, sock: Queue, display: Recorder)
      requires sock.Valid() && tiles > 0 && sock.Unread() != [] && Bit(sock.Unread()[0], 1)
      requires |sock.Unread()| >= 1 + t.width * t.height * 4
      modifies `lastsubencoding, `tiles, sock`rQi, sock.rQ, display
      ensures sock.Valid() && sock.Unread() == old(sock.Unread())[1 + t.width * t.height * 4..]
      ensures lastsubencoding == old(sock.Unread())[0] && tiles == old(tiles) - 1
      ensures display.calls
           == old(display.calls) + [Blit(t.x, t.y, t.width, t.height,
                                         Opaque(old(sock.Unread())[1..1 + t.width * t.height * 4]))]
    {
      ghost var data := sock.Unread()[1..1 + t.width * t.height * 4];
      var sub := sock.RQshift8();
      var pixels := t.width * t.height;
      assert sock.Unread()[..pixels * 4] == data;
      var start := sock.RQshiftView(pixels * 4);
      MakeOpaque(sock, start, pixels);
      display.BlitImage(t.x, t.y, t.width, t.height, sock.rQ[start..start + pixels * 4]);
      lastsubencoding := sub;
      tiles := tiles - 1;
    }

    /** The colours that a tile sends; the tile's bytes up to the subrectangle count are read. */
    method ReadColours(sock: Queue)
      requires sock.Valid() && sock.Unread() != [] && |sock.Unread()| >= CountAt(sock.Unread()[0])
      modifies `background, `foreground, sock`rQi
      ensures sock.Valid() && sock.Unread() == old(sock.Unread())[CountAt(old(sock.Unread())[0])..]
      ensures background == NewBackground(old(Abstract()), old(sock.Unread()))
      ensures foreground == NewForeground(old(Abstract()), old(sock.Unread()))
    {
      ghost var tile := sock.Unread();
      var sub := sock.RQshift8();
      if Bit(sub, 2) {
        background := sock.RQshiftBytes(4);
        assert background == tile[1..5];
      }
      if Bit(sub, 4) {
        foreground := sock.RQshiftBytes(4);
        assert foreground == tile[CountAt(sub) - 4..CountAt(sub)];
      }
    }

    /** The tile is filled with the background and its subrectangles are painted over it. */
    method PaintBody(t: Rect, sock: Queue, sub: Byte, ghost data: seq<Byte>) returns (ok: bool)
      requires sock.Valid() && tileBuffer.Length == TILE_BUFFER && tileBuffer != sock.rQ
      requires t.width <= 16 && t.height <= 16 && |background| == 4
      requires Bit(sub, 8) ==> 1 + |data| <= |sock.Unread()| && |data| == sock.Unread()[0] * UnitSize(Bit(sub, 16))
                               && data == sock.Unread()[1..1 + |data|]
      requires !Bit(sub, 8) ==> data == []
      modifies `tileX, `tileY, `tileW, `tileH, tileBuffer, sock`rQi
      ensures sock.Valid() && t.width * t.height * 4 <= TILE_BUFFER
      ensures ok <==> (data != [] && !Bit(sub, 16) ==> |foreground| == 4)
      ensures ok ==> tileX == t.x && tileY == t.y && tileW == t.width && tileH == t.height
      ensures ok ==> (tileBuffer[..t.width * t.height * 4]
                      == PaintAll(Plain(t.width * t.height, background), t.width, Bit(sub, 16), foreground, data))
      ensures ok ==> sock.Unread() == if Bit(sub, 8) then old(sock.Unread())[1 + |data|..] else old(sock.Unread())
    {
      NoUnits(sock.Unread()[..0], Bit(sub, 16));
      hide Plain;
      ghost var input := sock.Unread();
      StartTile(t, background);
      if !Bit(sub, 8) {
        return true;
      }
      hide PaintAll;
      var subrects := sock.RQshift8();
      NoUnits(data, Bit(sub, 16));
      if subrects > 0 && !Bit(sub, 16) && |foreground| != 4 {
        return false;
      }
      assert data <= sock.Unread();
      PaintSubrects(sock, subrects, Bit(sub, 16), data, t.width * t.height * 4);
      return true;
    }

    /** The remaining subencodings: plain colour, then subrectangles. */
    method PaintedTile(t: Rect, sock: Queue, display: Recorder) returns (ok: bool)
      requires sock.Valid() && tiles > 0 && tileBuffer.Length == TILE_BUFFER && tileBuffer != sock.rQ
      requires t.width <= 16 && t.height <= 16 && sock.Unread() != []
      requires sock.Unread()[0] != 0 && !Bit(sock.Unread()[0], 1) && |sock.Unread()| >= Expected(t, sock.Unread())
      modifies this, tileBuffer, sock`rQi, display
      ensures var n := Expected(t, old(sock.Unread()));
              n > 0 && Expected(t, old(sock.Unread())[..n]) == n
              && Drawn(TileMove(t, old(Abstract()), old(sock.Unread())[..n]), ok, Abstract(), old(display.calls),
                       display.calls)
              && (ok ==> sock.Valid() && sock.Unread() == old(sock.Unread())[n..])
      ensures tilesX == old(tilesX) && tilesY == old(tilesY) && totalTiles == old(totalTiles)
    {
      ghost var input, was := sock.Unread(), Abstract();
      ghost var n := Expected(t, input);
      ExpectedStays(t, input);
      ghost var tile := input[..n];
      TileParts(t, input);
      TileColours(t, was, input);
      hide PaintAll, Plain, Expected, SubrectData, CountAt, NewBackground, NewForeground;
      var sub := sock.RQpeek8();
      ReadColours(sock);
      if |background| != 4 {
        return false;
      }
      ok := PaintBody(t, sock, sub, SubrectData(tile));
      if ok {
        FinishTile(display);
        lastsubencoding := sub;
        tiles := tiles - 1;
      }
    }

    // ----- the rectangle ------------------------------------------------------------------------------

    /** How many bytes the next tile needs, as far as the bytes at hand tell; `waits` says
        that they are not there. */
    method Measure(t: Rect, sock: Queue, sub: Byte) returns (waits: bool)
      requires sock.Valid() && sock.Unread() != [] && sub == sock.Unread()[0]
      modifies sock`rQi
      ensures sock.Valid() && sock.Unread() == old(sock.Unread())
      ensures waits <==> |sock.Unread()| < Expected(t, sock.Unread())
    {
      hide Bit;
      var bytes := 1;
      if Bit(sub, 1) {
        bytes := bytes + t.width * t.height * 4;
      } else {
        if Bit(sub, 2) {
          bytes := bytes + 4;
        }
        if Bit(sub, 4) {
          bytes := bytes + 4;
        }
        if Bit(sub, 8) {
          assert bytes == CountAt(sub);
          bytes := bytes + 1;
          waits := sock.RQwait(bytes, 0);
          if waits {
            assert Expected(t, sock.Unread()) == CountAt(sub) + 1;
            return true;
          }
          var peeked := sock.RQpeekBytes(bytes);
          var subrects: nat := peeked[|peeked| - 1];
          assert subrects == sock.Unread()[CountAt(sub)];
          bytes := bytes + if Bit(sub, 16) then subrects * (4 + 2) else subrects * 2;
        }
      }
      assert bytes == Expected(t, sock.Unread());
      waits := sock.RQwait(bytes, 0);
    }

    /** One tile whose bytes are all there. */
    method DrawTile(t: Rect, sock: Queue, display: Recorder) returns (ok: bool)
      requires sock.Valid() && tiles > 0 && tileBuffer.Length == TILE_BUFFER && tileBuffer != sock.rQ
      requires t.width <= 16 && t.height <= 16 && sock.Unread() != [] && |sock.Unread()| >= Expected(t, sock.Unread())
      modifies this, tileBuffer, sock`rQi, sock.rQ, display
      ensures var n := Expected(t, old(sock.Unread()));
              n > 0 && Expected(t, old(sock.Unread())[..n]) == n
              && Drawn(TileMove(t, old(Abstract()), old(sock.Unread())[..n]), ok, Abstract(), old(display.calls),
                       display.calls)
              && (ok ==> sock.Valid() && sock.Unread() == old(sock.Unread())[n..])
      ensures tilesX == old(tilesX) && tilesY == old(tilesY) && totalTiles == old(totalTiles) && sock.rQ == old(sock.rQ)
    {
      ghost var input := sock.Unread();
      ExpectedStays(t, input);
      var sub := sock.RQpeek8();
      if sub == 0 {
        assert input[..1] == [0];
        ok := BlankTile(t, sock, display);
      } else if Bit(sub, 1) {
        assert input[..Expected(t, input)][1..] == input[1..1 + t.width * t.height * 4];
        RawTile(t, sock, display);
        ok := true;
      } else {
        ok := PaintedTile(t, sock, display);
      }
    }

    /** One turn of the loop: the next tile is drawn, or its bytes are waited for. */
    method NextTile(r: Rect, sock: Queue, display: Recorder) returns (status: Status)
      requires sock.Valid() && Valid(r) && tileBuffer != sock.rQ && tiles > 0
      modifies this, tileBuffer, sock`rQi, sock.rQ, display
      ensures sock.rQ == old(sock.rQ)
      ensures var move := TileStep(r, old(Abstract()), old(sock.Unread()));
              && status == (if move.Wait? then Waiting else if move.Fail? then Failed else Finished)
              && (move.Wait? || move.Fail? || (move.Take? && 0 < move.n <= |old(sock.Unread())|))
              && display.calls == (if move.Take? then old(display.calls) + move.calls else old(display.calls))
              && (!move.Fail? ==> sock.Valid() && Valid(r))
              && (move.Wait? ==> Abstract() == old(Abstract()) && sock.Unread() == old(sock.Unread()))
              && (move.Take? ==> Abstract() == move.next && sock.Unread() == old(sock.Unread())[move.n..]
                                 && move.next.left == old(tiles) - 1)
    {
      hide TileMove, TileAt, Expected, CountAt, Bit;
      ghost var s, input := Abstract(), sock.Unread();
      var wait := sock.RQwait(1, 0);
      if wait {
        return Waiting;
      }
      var sub := sock.RQpeek8();
      if sub > 30 {
        return Failed;
      }
      var t := TileNow(r, totalTiles - tiles);
      var waits := Measure(t, sock, sub);
      if waits {
        return Waiting;
      }
      var ok := DrawTile(t, sock, display);
      TakesTile(t, s, input[..Expected(t, input)]);
      return if ok then Finished else Failed;
    }

    /** Tiles are drawn as long as their bytes have arrived. */
    method DecodeRect(r: Rect, sock: Queue, display: Recorder) returns (status: Status)
      requires sock.Valid() && Valid(r) && tileBuffer != sock.rQ
      modifies this, tileBuffer, sock`rQi, sock.rQ, display
      ensures sock.rQ == old(sock.rQ)
      ensures var p := Decoded(r, old(Abstract()), old(sock.Unread()));
              status == p.status && display.calls == old(display.calls) + p.calls
              && (status != Failed ==> sock.Valid() && Valid(r) && Abstract() == p.state && sock.Unread() == p.rest)
    {
      hide Run, TileStep, TotalTiles;
      TilesSteady(r);
      ghost var units := Tiles(r);
      ghost var goal := Decoded(r, Abstract(), sock.Unread());
      ghost var calls: seq<Call> := [];
      AfterNothing(goal);
      BeginRect(r);
      while tiles > 0
        invariant sock.Valid() && Valid(r) && sock.rQ == old(sock.rQ)
        invariant display.calls == old(display.calls) + calls
        invariant goal == After(calls, Run(units, Abstract(), sock.Unread()))
        decreases tiles
      {
        ghost var s, input := Abstract(), sock.Unread();
        status := NextTile(r, sock, display);
        if status != Finished {
          Stops(units, goal, calls, s, input);
          return;
        }
        Advances(units, goal, calls, s, input);
        calls := calls + TileStep(r, s, input).calls;
      }
      AtRest(r, Abstract(), sock.Unread());
      Stops(units, goal, calls, Abstract(), sock.Unread());
      return Finished;
    }

    /** A decoder at rest counts the tiles of the rectangle. */
    method BeginRect(r: Rect)
      requires Valid(r)
      modifies this
      ensures Valid(r) && Abstract() == Entry(r, old(Abstract()))
    {
      if tiles == 0 {
        tilesX := Across(r.width, SIDE);
        tilesY := Across(r.height, SIDE);
        totalTiles := tilesX * tilesY;
        tiles := totalTiles;
      }
    }

    /** The tile geometry, from the fields. */
    method TileNow(r: Rect, currTile: nat) returns (t: Rect)
      requires currTile < TotalTiles(r, SIDE) && tilesX == Across(r.width, SIDE)
      ensures t == TileAt(r, SIDE, currTile)
    {
      TileInside(r, SIDE, currTile);
      var column := currTile % tilesX;
      var row := currTile / tilesX;
      var tx, ty := r.x + column * 16, r.y + row * 16;
      var tw := if r.x + r.width - tx < 16 then r.x + r.width - tx else 16;
      var th := if r.y + r.height - ty < 16 then r.y + r.height - ty else 16;
      return Rect(tx, ty, tw, th);
    }
  }

  // ----- a rectangle that arrives in messages -----------------------------------------------------

  predicate Reached(p: Progress<State>, status: Status, s: State, unread: seq<Byte>, calls: seq<Call>) {
    p == Progress(status, s, unread, calls) && status != Failed && (status == Finished <==> s.left == 0)
  }

  lemma FirstReached(r: Rect, s: State, input: seq<Byte>)
    requires s.left <= TotalTiles(r, SIDE)
    ensures var p := Decoded(r, s, input);
            p.status != Failed ==> Reached(p, p.status, p.state, p.rest, p.calls) && p.state.left <= TotalTiles(r, SIDE)
  {
    TilesSteady(r);
    RestsOrWaits(r, Entry(r, s), input);
  }

  lemma ReachedMore(r: Rect, s: State, all: seq<Byte>, m: seq<Byte>, status: Status, now: State, unread: seq<Byte>,
                    calls: seq<Call>)
    requires Reached(Decoded(r, s, all), status, now, unread, calls)
    ensures Decoded(r, s, all + m)
         == if status == Finished then Progress(Finished, now, unread + m, calls)
            else After(calls, Decoded(r, now, unread + m))
  {
    TilesSteady(r);
    Resumes(Tiles(r), Entry(r, s), all, m);
  }

  lemma FailedStays(r: Rect, s: State, all: seq<Byte>, m: seq<Byte>)
    requires Decoded(r, s, all).status == Failed
    ensures Decoded(r, s, all + m).status == Failed && Decoded(r, s, all + m).calls == Decoded(r, s, all).calls
  {
    TilesSteady(r);
    Resumes(Tiles(r), Entry(r, s), all, m);
  }

  /** What remains unread is no longer than what came. */
  lemma NoLonger(r: Rect, s: State, all: seq<Byte>)
    ensures |Decoded(r, s, all).rest| <= |all|
  {
    TilesSteady(r);
    RestIsSuffix(Tiles(r), Entry(r, s), all);
  }

  /** However the bytes are cut into messages, the decoder draws the same tiles, consumes
      the same bytes and fails in the same cases as if all bytes had been there at once. */
  method ReceiveRect(r: Rect, decoder: HextileDecoder, sock: Queue, display: Recorder, messages: seq<seq<Byte>>)
    returns (status: Status, overflow: bool)
    requires sock.Valid() && decoder.Valid(r) && decoder.tileBuffer != sock.rQ
    modifies decoder, decoder.tileBuffer, sock, sock.rQ, display
    ensures !overflow ==>
              var p := Decoded(r, old(decoder.Abstract()), old(sock.Unread()) + Concat(messages));
              status == p.status && display.calls == old(display.calls) + p.calls
              && (status != Failed ==> sock.Valid() && decoder.Abstract() == p.state && sock.Unread() == p.rest)
    ensures overflow ==> |old(sock.Unread())| + |Concat(messages)| > MAX_RQ_GROW_SIZE
  {
    hide Run, Decoded, TotalTiles;
    ghost var s, first, before := decoder.Abstract(), sock.Unread(), display.calls;
    FirstReached(r, s, first);
    status := decoder.DecodeRect(r, sock, display);
    overflow := false;
    ghost var all, calls := first, Decoded(r, s, first).calls;
    if status == Failed {
      FailedStays(r, s, first, Concat(messages));
      return;
    }
    for i := 0 to |messages|
      invariant sock.Valid() && decoder.Valid(r) && (sock.rQ == old(sock.rQ) || fresh(sock.rQ))
      invariant decoder.tileBuffer != sock.rQ && decoder.tiles <= TotalTiles(r, SIDE)
      invariant all + Concat(messages[i..]) == first + Concat(messages) && display.calls == before + calls
      invariant Reached(Decoded(r, s, all), status, decoder.Abstract(), sock.Unread(), calls)
    {
      var m := messages[i];
      ReachedMore(r, s, all, m, status, decoder.Abstract(), sock.Unread(), calls);
      FirstReached(r, decoder.Abstract(), sock.Unread() + m);
      ghost var more := Decoded(r, decoder.Abstract(), sock.Unread() + m).calls;
      ConcatNext(all, messages, i);
      NoLonger(r, s, all);
      var ok, _ := sock.RecvMessage(m);
      if !ok {
        return status, true;
      }
      all := all + m;
      if status == Waiting {
        status := decoder.DecodeRect(r, sock, display);
        calls := calls + more;
        if status == Failed {
          FailedStays(r, s, all, Concat(messages[i + 1..]));
          return;
        }
      }
    }
    assert messages[|messages|..] == [] && all + [] == all;
  }

  /** A tile was drawn as `move` says, or the attempt failed and drew nothing. */
  predicate Drawn(move: Move<State>, ok: bool, after: State, before: seq<Call>, calls: seq<Call>) {
    && ok == move.Take?
    && (ok ==> after == move.next && calls == before + move.calls)
    && (!ok ==> calls == before)
  }

  lemma PrefixSlice(input: seq<Byte>, n: nat, i: nat, j: nat)
    requires i <= j <= n <= |input|
    ensures input[..n][i..j] == input[i..j]
  {
  }

  /** The colours of a tile, found in all the bytes at hand. */
  lemma TileColours(t: Rect, s: State, input: seq<Byte>)
    requires input != [] && |input| >= Expected(t, input) && !Bit(input[0], 1)
    ensures CountAt(input[0]) <= Expected(t, input) && Expected(t, input) > 0
    ensures NewBackground(s, input[..Expected(t, input)]) == NewBackground(s, input)
    ensures NewForeground(s, input[..Expected(t, input)]) == NewForeground(s, input)
  {
    var n, count := Expected(t, input), CountAt(input[0]);
    if Bit(input[0], 2) {
      PrefixSlice(input, n, 1, 5);
    }
    if Bit(input[0], 4) {
      PrefixSlice(input, n, count - 4, count);
    }
  }

  /** The subrectangles of a tile, found in all the bytes at hand. */
  lemma TileParts(t: Rect, input: seq<Byte>)
    requires input != [] && |input| >= Expected(t, input) && !Bit(input[0], 1)
    ensures var n := Expected(t, input);
            var tile, count := input[..n], CountAt(input[0]);
            && 0 < count <= n
            && (if Bit(input[0], 8)
                then var data := SubrectData(tile);
                     n == count + 1 + |data| && |data| == input[count] * UnitSize(Bit(input[0], 16))
                     && data == input[count..][1..1 + |data|]
                else n == count && SubrectData(tile) == [])
  {
    var n, count := Expected(t, input), CountAt(input[0]);
    if Bit(input[0], 8) {
      PrefixSuffix(input, n, count + 1);
      SuffixSlice(input, count, 1, n - count);
      PrefixAt(input, n, 0);
      PrefixAt(input, n, count);
    }
  }

  lemma SuffixSlice(s: seq<Byte>, i: nat, a: nat, b: nat)
    requires i <= |s| && a <= b <= |s| - i
    ensures s[i..][a..b] == s[i + a..i + b]
  {
  }

  lemma PrefixSuffix(s: seq<Byte>, n: nat, i: nat)
    requires i <= n <= |s|
    ensures s[..n][i..] == s[i..n]
  {
  }

  lemma PrefixAt(s: seq<Byte>, n: nat, i: nat)
    requires i < n <= |s|
    ensures s[..n][i] == s[i]
  {
  }

  // ----- about the loops --------------------------------------------------------------------------------

  lemma TileFits(w: nat, h: nat)
    requires w <= 16 && h <= 16
    ensures w * h * 4 <= TILE_BUFFER
  {
    MulMono(w, 16, h);
  }

  lemma CoveredNext(q: nat, tw: nat, a: Area, j: nat)
    requires a.y <= j
    ensures Covered(q, tw, a, j + 1) <==> Covered(q, tw, a, j) || OnRow(q, tw, a, j)
  {
  }

  lemma PaintFirst(tile: seq<Byte>, tw: nat, coloured: bool, foreground: seq<Byte>, data: seq<Byte>)
    requires |data| >= UnitSize(coloured) && (!coloured ==> |foreground| == 4)
    ensures PaintAll(tile, tw, coloured, foreground, data)
         == PaintAll(PaintedUnit(tile, tw, coloured, foreground, data[..UnitSize(coloured)]), tw, coloured, foreground,
                     data[UnitSize(coloured)..])
  {
  }

  lemma PaintNothing(tile: seq<Byte>, tw: nat, coloured: bool, foreground: seq<Byte>)
    ensures PaintAll(tile, tw, coloured, foreground, []) == tile
  {
  }

  lemma UnitOff(left: nat, size: nat)
    requires left > 0
    ensures left * size == size + (left - 1) * size
  {
  }

  lemma NoUnits(data: seq<Byte>, coloured: bool)
    ensures forall n: nat :: |data| == n * UnitSize(coloured) ==> (data == [] <==> n == 0)
  {
  }

}
