/** Hextile tiles as a server writes them, and the proof that decoding draws exactly the
    pixels that were meant (section 7.7.4 of RFC 6143). */
module HextileTiles {
  import opened Bytes
  import opened Resume
  import opened Screen
  import opened Arithmetic
  import opened Tiling
  import opened HextileDecoding

  // ----- tiles and their bytes --------------------------------------------------------------------

  datatype Subrect = Subrect(x: nat, y: nat, width: nat, height: nat, colour: seq<Byte>)

  /** An absent colour is the one of an earlier tile. */
  datatype Tile =
    | Again
    | Raw(sub: Byte, pixels: seq<Byte>)
    | Painted(background: seq<Byte>, foreground: seq<Byte>, any: bool, coloured: bool, subrects: seq<Subrect>)

  predicate Contains(b: Subrect, i: nat, j: nat) {
    b.x <= i < b.x + b.width && b.y <= j < b.y + b.height
  }

  /** A subrectangle that is not empty and lies inside the tile. */
  predicate Fits(t: Rect, b: Subrect) {
    b.width >= 1 && b.height >= 1 && b.x + b.width <= t.width && b.y + b.height <= t.height && |b.colour| == 4
  }

  predicate SmallTile(t: Rect) {
    1 <= t.width <= 16 && 1 <= t.height <= 16
  }

  predicate ColourOrNone(colour: seq<Byte>) {
    colour == [] || |colour| == 4
  }

  /** A tile that has an encoding: its bytes are of the right number, and without colours of
      their own all subrectangles have the foreground colour. */
  predicate Encodable(t: Rect, s: State, tile: Tile) {
    SmallTile(t) && match tile
    case Again => true
    case Raw(sub, pixels) => sub % 2 == 1 && sub <= 30 && |pixels| == t.width * t.height * 4
    case Painted(background, foreground, any, coloured, subrects) =>
      && ColourOrNone(background) && ColourOrNone(foreground)
      && (background != [] || foreground != [] || any || coloured) && |subrects| < 256
      && (!any ==> subrects == []) && (forall b <- subrects :: Fits(t, b))
      && (!coloured ==> forall b <- subrects :: b.colour == Kept(foreground, s.foreground))
  }

  function Kept(sent: seq<Byte>, before: seq<Byte>): seq<Byte> {
    if sent == [] then before else sent
  }

  /** Position and extent in two bytes, behind the colour when it has its own. */
  function EncodeSubrect(b: Subrect, coloured: bool): (bytes: seq<Byte>)
    requires b.x < 16 && b.y < 16 && 1 <= b.width <= 16 && 1 <= b.height <= 16
  {
    (if coloured then b.colour else []) + [b.x * 16 + b.y, (b.width - 1) * 16 + (b.height - 1)]
  }

  function EncodeSubrects(t: Rect, subrects: seq<Subrect>, coloured: bool): (bytes: seq<Byte>)
    requires SmallTile(t) && forall b <- subrects :: Fits(t, b)
    ensures |bytes| == |subrects| * UnitSize(coloured)
  {
    if subrects == [] then []
    else
      assert Fits(t, subrects[0]);
      EncodeSubrect(subrects[0], coloured) + EncodeSubrects(t, subrects[1..], coloured)
  }

  function Flags(background: bool, foreground: bool, any: bool, coloured: bool): Byte {
    (if background then 2 else 0) + (if foreground then 4 else 0) + (if any then 8 else 0) + if coloured then 16 else 0
  }

  function Encode(t: Rect, s: State, tile: Tile): (bytes: seq<Byte>)
    requires Encodable(t, s, tile)
    ensures bytes != []
  {
    match tile
    case Again => [0]
    case Raw(sub, pixels) => [sub] + pixels
    case Painted(background, foreground, any, coloured, subrects) =>
      [Flags(background != [], foreground != [], any, coloured)] + background + foreground
      + if any then [|subrects|] + EncodeSubrects(t, subrects, coloured) else []
  }

  // ----- what a tile shows ------------------------------------------------------------------------

  /** The colour of the last subrectangle that contains the pixel, else the background. */
  function ColourAt(background: seq<Byte>, subrects: seq<Subrect>, i: nat, j: nat): (colour: seq<Byte>)
    requires |background| == 4 && forall b <- subrects :: |b.colour| == 4
    ensures |colour| == 4
  {
    if subrects == [] then background
    else
      var n := |subrects| - 1;
      if Contains(subrects[n], i, j) then subrects[n].colour else ColourAt(background, subrects[..n], i, j)
  }

  /** The pixels of a tile, along its rows, each opaque. */
  function Image(t: Rect, background: seq<Byte>, subrects: seq<Subrect>): (pixels: seq<Byte>)
    requires t.width > 0 && |background| == 4 && forall b <- subrects :: |b.colour| == 4
    ensures |pixels| == t.width * t.height * 4
  {
    seq(t.width * t.height * 4, k requires 0 <= k < t.width * t.height * 4 =>
      if k % 4 == 3 then 255 else ColourAt(background, subrects, k / 4 % t.width, k / 4 / t.width)[k % 4])
  }

  /** The colours that the tile needs are known. */
  predicate Legible(s: State, tile: Tile) {
    match tile
    case Again => s.last % 2 == 1 || |s.background| == 4
    case Raw(_, _) => true
    case Painted(background, foreground, any, coloured, subrects) =>
      && |Kept(background, s.background)| == 4
      && (subrects != [] && !coloured ==> |Kept(foreground, s.foreground)| == 4)
  }

  /** What is drawn for a tile; a blank tile behind a raw one is not drawn at all. */
  function TileCalls(t: Rect, s: State, tile: Tile): seq<Call>
    requires Encodable(t, s, tile) && Legible(s, tile)
  {
    match tile
    case Again => if s.last % 2 == 1 then [] else [Fill(t.x, t.y, t.width, t.height, s.background)]
    case Raw(_, pixels) => [Blit(t.x, t.y, t.width, t.height, Opaque(pixels))]
    case Painted(background, _, _, _, subrects) =>
      [Blit(t.x, t.y, t.width, t.height, Image(t, Kept(background, s.background), subrects))]
  }

  /** Later tiles know the colours that this one sent, and whether it was raw. */
  function TileState(s: State, tile: Tile): State
    requires s.left > 0
  {
    var rest := s.(left := s.left - 1);
    match tile
    case Again => rest.(last := 0)
    case Raw(sub, _) => rest.(last := sub)
    case Painted(background, foreground, any, coloured, _) =>
      rest.(last := Flags(background != [], foreground != [], any, coloured),
            background := Kept(background, s.background), foreground := Kept(foreground, s.foreground))
  }

  // ----- subrectangles ------------------------------------------------------------------------------

  lemma NibblesBack(b: Subrect)
    requires b.x < 16 && b.y < 16 && 1 <= b.width <= 16 && 1 <= b.height <= 16
    ensures AreaOf(b.x * 16 + b.y, (b.width - 1) * 16 + (b.height - 1)) == Area(b.x, b.y, b.width, b.height)
  {
    DivideUnique(b.x * 16 + b.y, b.x, 16);
    DivideUnique((b.width - 1) * 16 + (b.height - 1), b.width - 1, 16);
  }

  lemma PixelIndex(t: Rect, k: nat) returns (i: nat, j: nat, channel: nat)
    requires t.width > 0
    ensures k == (j * t.width + i) * 4 + channel && i < t.width && channel < 4
  {
    i, j, channel := k / 4 % t.width, k / 4 / t.width, k % 4;
    Divide(k / 4, t.width);
  }

  lemma ImageAt(t: Rect, background: seq<Byte>, subrects: seq<Subrect>, i: nat, j: nat, channel: nat)
    requires t.width > 0 && |background| == 4 && (forall b <- subrects :: |b.colour| == 4)
    requires i < t.width && channel < 4 && (j * t.width + i) * 4 + channel < t.width * t.height * 4
    ensures Image(t, background, subrects)[(j * t.width + i) * 4 + channel]
         == if channel == 3 then 255 else ColourAt(background, subrects, i, j)[channel]
  {
    var k := (j * t.width + i) * 4 + channel;
    assert k / 4 == j * t.width + i && k % 4 == channel;
    DivideUnique(k / 4, j, t.width);
  }

  lemma SubrectPixel(t: Rect, background: seq<Byte>, subrects: seq<Subrect>, b: Subrect, image: seq<Byte>, i: nat,
                     j: nat, channel: nat, k: nat)
    requires SmallTile(t) && |background| == 4 && (forall c <- subrects :: |c.colour| == 4) && Fits(t, b)
    requires i < t.width && channel < 4 && k == (j * t.width + i) * 4 + channel && k < t.width * t.height * 4
    requires image == Image(t, background, subrects)
    ensures HextileDecoding.Painted(image, t.width, Area(b.x, b.y, b.width, b.height), b.colour)[k]
         == Image(t, background, subrects + [b])[k]
  {
    hide Image, HextileDecoding.Painted, Covered;
    ImageAt(t, background, subrects, i, j, channel);
    ImageAt(t, background, subrects + [b], i, j, channel);
    assert (subrects + [b])[..|subrects|] == subrects;
    PaintsItsArea(image, t.width, Area(b.x, b.y, b.width, b.height), b.colour, i, j, channel);
  }

  lemma SubrectByte(t: Rect, background: seq<Byte>, subrects: seq<Subrect>, b: Subrect, image: seq<Byte>, k: nat)
    requires SmallTile(t) && |background| == 4 && (forall c <- subrects :: |c.colour| == 4) && Fits(t, b)
    requires image == Image(t, background, subrects) && k < t.width * t.height * 4
    ensures HextileDecoding.Painted(image, t.width, Area(b.x, b.y, b.width, b.height), b.colour)[k]
         == Image(t, background, subrects + [b])[k]
  {
    hide Image, HextileDecoding.Painted, Covered, Fits, Contains, ColourAt;
    var i, j, channel := PixelIndex(t, k);
    SubrectPixel(t, background, subrects, b, image, i, j, channel, k);
  }

  /** One more subrectangle covers what was there before. */
  lemma SubrectDrawn(t: Rect, background: seq<Byte>, subrects: seq<Subrect>, b: Subrect, coloured: bool,
                     foreground: seq<Byte>)
    requires SmallTile(t) && |background| == 4 && (forall c <- subrects :: |c.colour| == 4) && Fits(t, b)
    requires !coloured ==> foreground == b.colour
    ensures PaintedUnit(Image(t, background, subrects), t.width, coloured, foreground, EncodeSubrect(b, coloured))
         == Image(t, background, subrects + [b])
  {
    hide Image, HextileDecoding.Painted, AreaOf;
    var unit, image := EncodeSubrect(b, coloured), Image(t, background, subrects);
    NibblesBack(b);
    assert coloured ==> unit[..4] == b.colour;
    var a := Area(b.x, b.y, b.width, b.height);
    var drawn, goal := HextileDecoding.Painted(image, t.width, a, b.colour), Image(t, background, subrects + [b]);
    forall k | 0 <= k < |drawn| ensures drawn[k] == goal[k] {
      SubrectByte(t, background, subrects, b, image, k);
    }
    assert drawn == goal;
  }

  lemma {:induction false} SubrectsDrawn(t: Rect, background: seq<Byte>, done: seq<Subrect>, subrects: seq<Subrect>,
                                         coloured: bool, foreground: seq<Byte>)
    requires SmallTile(t) && |background| == 4 && (forall c <- done :: |c.colour| == 4)
    requires (forall b <- subrects :: Fits(t, b)) && (subrects != [] && !coloured ==> |foreground| == 4)
    requires !coloured ==> forall b <- subrects :: b.colour == foreground
    ensures PaintAll(Image(t, background, done), t.width, coloured, foreground, EncodeSubrects(t, subrects, coloured))
         == Image(t, background, done + subrects)
    decreases |subrects|
  {
    hide Image, PaintedUnit;
    var data := EncodeSubrects(t, subrects, coloured);
    if subrects == [] {
      assert done + subrects == done;
    } else {
      var n := UnitSize(coloured);
      assert Fits(t, subrects[0]);
      var first, rest := EncodeSubrect(subrects[0], coloured), EncodeSubrects(t, subrects[1..], coloured);
      assert data[..n] == first && data[n..] == rest;
      SubrectDrawn(t, background, done, subrects[0], coloured, foreground);
      SubrectsDrawn(t, background, done + [subrects[0]], subrects[1..], coloured, foreground);
      assert done + [subrects[0]] + subrects[1..] == done + subrects;
    }
  }

  lemma PlainImage(t: Rect, background: seq<Byte>)
    requires t.width > 0 && |background| == 4
    ensures Plain(t.width * t.height, background) == Image(t, background, [])
  {
  }

  // ----- tiles ------------------------------------------------------------------------------------------

  lemma FlagBits(background: bool, foreground: bool, any: bool, coloured: bool)
    ensures var sub := Flags(background, foreground, any, coloured);
            && !Bit(sub, 1) && (Bit(sub, 2) <==> background) && (Bit(sub, 4) <==> foreground)
            && (Bit(sub, 8) <==> any) && (Bit(sub, 16) <==> coloured) && sub <= 30
            && (sub == 0 <==> !background && !foreground && !any && !coloured)
  {
  }

  /** Colours that may be absent, and what follows them. */
  lemma ColoursApart(first: Byte, background: seq<Byte>, foreground: seq<Byte>, tail: seq<Byte>)
    requires ColourOrNone(background) && ColourOrNone(foreground)
    ensures var bytes := [first] + background + foreground + tail;
            var head := 1 + |background| + |foreground|;
            && bytes[0] == first && head <= |bytes| && bytes[head..] == tail
            && (background != [] ==> bytes[1..5] == background)
            && (foreground != [] ==> bytes[head - 4..head] == foreground)
  {
  }

  lemma PaintedBytes(t: Rect, s: State, tile: Tile)
    requires Encodable(t, s, tile) && tile.Painted?
    ensures var bytes := Encode(t, s, tile);
            && bytes[0] == Flags(tile.background != [], tile.foreground != [], tile.any, tile.coloured)
            && |bytes| == Expected(t, bytes) && CountAt(bytes[0]) <= |bytes|
            && NewBackground(s, bytes) == Kept(tile.background, s.background)
            && NewForeground(s, bytes) == Kept(tile.foreground, s.foreground)
            && SubrectData(bytes) == EncodeSubrects(t, tile.subrects, tile.coloured)
  {
    hide Bit, Flags, Encodable;
    FlagBits(tile.background != [], tile.foreground != [], tile.any, tile.coloured);
    EncodableParts(t, s, tile);
    var bytes := Encode(t, s, tile);
    var data := EncodeSubrects(t, tile.subrects, tile.coloured);
    var tail := if tile.any then [|tile.subrects|] + data else [];
    ColoursApart(bytes[0], tile.background, tile.foreground, tail);
    var head := 1 + |tile.background| + |tile.foreground|;
    assert head == CountAt(bytes[0]) && bytes[head..] == tail;
    if tile.any {
      assert bytes[head] == bytes[head..][0] == |tile.subrects|;
      assert bytes[head + 1..] == bytes[head..][1..] == data;
    }
  }

  lemma EncodableParts(t: Rect, s: State, tile: Tile)
    requires Encodable(t, s, tile) && tile.Painted?
    ensures ColourOrNone(tile.background) && ColourOrNone(tile.foreground) && |tile.subrects| < 256
    ensures (!tile.any ==> tile.subrects == []) && SmallTile(t) && forall b <- tile.subrects :: Fits(t, b)
    ensures !tile.coloured ==> forall b <- tile.subrects :: b.colour == Kept(tile.foreground, s.foreground)
  {
  }

  lemma PaintedBack(t: Rect, s: State, tile: Tile)
    requires Encodable(t, s, tile) && tile.Painted? && s.left > 0
    ensures |Encode(t, s, tile)| == Expected(t, Encode(t, s, tile))
    ensures TileMove(t, s, Encode(t, s, tile))
         == if Legible(s, tile) then Take(|Encode(t, s, tile)|, TileState(s, tile), TileCalls(t, s, tile)) else Fail
  {
    PaintedBytes(t, s, tile);
    FlagBits(tile.background != [], tile.foreground != [], tile.any, tile.coloured);
    EncodableParts(t, s, tile);
    hide Bit, Flags, Image, PaintAll, Plain, Encode, Expected, NewBackground, NewForeground, SubrectData, CountAt;
    if Legible(s, tile) {
      var background := Kept(tile.background, s.background);
      PlainImage(t, background);
      SubrectsDrawn(t, background, [], tile.subrects, tile.coloured, Kept(tile.foreground, s.foreground));
      assert [] + tile.subrects == tile.subrects;
    }
  }

  lemma RawBack(t: Rect, s: State, tile: Tile)
    requires Encodable(t, s, tile) && !tile.Painted? && s.left > 0
    ensures |Encode(t, s, tile)| == Expected(t, Encode(t, s, tile))
    ensures TileMove(t, s, Encode(t, s, tile))
         == if Legible(s, tile) then Take(|Encode(t, s, tile)|, TileState(s, tile), TileCalls(t, s, tile)) else Fail
  {
    if tile.Raw? {
      assert ([tile.sub] + tile.pixels)[1..] == tile.pixels;
    }
  }

  /** A tile comes back: it is drawn as it was meant exactly when the colours that it needs
      are known, and refused otherwise. */
  lemma TileBack(r: Rect, s: State, tile: Tile, more: seq<Byte>)
    requires 0 < s.left <= TotalTiles(r, SIDE)
    requires Encodable(TileAt(r, SIDE, TotalTiles(r, SIDE) - s.left), s, tile)
    ensures var t := TileAt(r, SIDE, TotalTiles(r, SIDE) - s.left);
            var bytes := Encode(t, s, tile);
            TileStep(r, s, bytes + more)
            == if Legible(s, tile) then Take(|bytes|, TileState(s, tile), TileCalls(t, s, tile)) else Fail
  {
    var t := TileAt(r, SIDE, TotalTiles(r, SIDE) - s.left);
    var bytes := Encode(t, s, tile);
    FirstByte(t, s, tile);
    if tile.Painted? {
      PaintedBack(t, s, tile);
    } else {
      RawBack(t, s, tile);
    }
    hide Encode, TileMove, Expected, Legible, TileCalls, Encodable, TotalTiles;
    ExpectedStays(t, bytes);
    assert Expected(t, bytes + more) == |bytes| && (bytes + more)[..|bytes|] == bytes;
  }

  lemma FirstByte(t: Rect, s: State, tile: Tile)
    requires Encodable(t, s, tile)
    ensures Encode(t, s, tile)[0] <= 30
  {
  }

  // ----- rectangles -------------------------------------------------------------------------------------

  /** The tile that comes next. */
  function Next(r: Rect, s: State): Rect
    requires 0 < s.left <= TotalTiles(r, SIDE)
  {
    TileAt(r, SIDE, TotalTiles(r, SIDE) - s.left)
  }

  /** All remaining tiles of a rectangle, with the colours they need. */
  predicate Sendable(r: Rect, s: State, tiles: seq<Tile>)
    decreases |tiles|
  {
    && s.left == |tiles| <= TotalTiles(r, SIDE)
    && (tiles != [] ==>
          && Encodable(Next(r, s), s, tiles[0]) && Legible(s, tiles[0])
          && Sendable(r, TileState(s, tiles[0]), tiles[1..]))
  }

  function EncodeTiles(r: Rect, s: State, tiles: seq<Tile>): seq<Byte>
    requires Sendable(r, s, tiles)
    decreases |tiles|
  {
    if tiles == [] then []
    else Encode(Next(r, s), s, tiles[0]) + EncodeTiles(r, TileState(s, tiles[0]), tiles[1..])
  }

  function RectCalls(r: Rect, s: State, tiles: seq<Tile>): seq<Call>
    requires Sendable(r, s, tiles)
    decreases |tiles|
  {
    if tiles == [] then [] else TileCalls(Next(r, s), s, tiles[0]) + RectCalls(r, TileState(s, tiles[0]), tiles[1..])
  }

  /** What the decoder remembers after the first `n` tiles. */
  function Remembered(r: Rect, s: State, tiles: seq<Tile>, n: nat): State
    requires Sendable(r, s, tiles) && n <= |tiles|
    decreases |tiles|
  {
    if n == 0 then s else Remembered(r, TileState(s, tiles[0]), tiles[1..], n - 1)
  }

  lemma {:induction false} TilesBack(r: Rect, s: State, tiles: seq<Tile>, more: seq<Byte>)
    requires Steady(Tiles(r)) && Sendable(r, s, tiles)
    ensures Run(Tiles(r), s, EncodeTiles(r, s, tiles) + more)
         == Progress(Finished, Remembered(r, s, tiles, |tiles|), more, RectCalls(r, s, tiles))
    decreases |tiles|
  {
    hide TotalTiles, Encode, TileCalls, TileState, Encodable, Legible;
    var input := EncodeTiles(r, s, tiles) + more;
    if tiles == [] {
      AtRest(r, s, input);
      assert input == more;
    } else {
      var bytes, next := Encode(Next(r, s), s, tiles[0]), TileState(s, tiles[0]);
      var tail := EncodeTiles(r, next, tiles[1..]) + more;
      assert input == bytes + tail;
      TileBack(r, s, tiles[0], tail);
      RunTakes(Tiles(r), s, input);
      assert input[|bytes|..] == tail;
      hide TileStep, Run;
      TilesBack(r, next, tiles[1..], more);
    }
  }

  /** Decoding an encoded rectangle makes exactly the calls of its tiles, and remembers the
      colours that were sent last for the next rectangle. */
  lemma RectBack(r: Rect, s: State, tiles: seq<Tile>, more: seq<Byte>)
    requires s.left == 0 && Sendable(r, Entry(r, s), tiles)
    ensures Decoded(r, s, EncodeTiles(r, Entry(r, s), tiles) + more)
         == Progress(Finished, Remembered(r, Entry(r, s), tiles, |tiles|), more, RectCalls(r, Entry(r, s), tiles))
  {
    TilesSteady(r);
    TilesBack(r, Entry(r, s), tiles, more);
  }

  // ----- pixels -----------------------------------------------------------------------------------------

  predicate Covers(call: Call, x: int, y: int) {
    call.x <= x < call.x + call.width && call.y <= y < call.y + call.height
  }

  /** The calls that draw the pixel at (x, y), in their order. */
  function Over(calls: seq<Call>, x: int, y: int): seq<Call> {
    if calls == [] then [] else (if Covers(calls[0], x, y) then [calls[0]] else []) + Over(calls[1..], x, y)
  }

  /** The call puts the colour at (x, y), opaque. */
  predicate Puts(call: Call, x: int, y: int, colour: seq<Byte>)
    requires |colour| >= 3
  {
    match call
    case Fill(_, _, _, _, c) => |c| >= 3 && c[..3] == colour[..3]
    case Blit(left, top, width, _, pixels) =>
      var at_ := ((y - top) * width + (x - left)) * 4;
      0 <= at_ && at_ + 4 <= |pixels| && pixels[at_..at_ + 4] == colour[..3] + [255]
    case Picture(_, _, _, _, _) => false
  }

  /** The colour that the tile has in its column `i` and row `j`. */
  function Meant(t: Rect, s: State, tile: Tile, i: nat, j: nat): (colour: seq<Byte>)
    requires Encodable(t, s, tile) && Legible(s, tile) && i < t.width && j < t.height
    requires tile.Again? ==> s.last % 2 == 0
    ensures |colour| == 4
  {
    match tile
    case Again => s.background
    case Raw(_, pixels) =>
      PixelFits(t, i, j);
      pixels[(j * t.width + i) * 4..(j * t.width + i) * 4 + 4]
    case Painted(background, _, _, _, subrects) => ColourAt(Kept(background, s.background), subrects, i, j)
  }

  lemma PixelFits(t: Rect, i: nat, j: nat)
    requires i < t.width && j < t.height
    ensures (j * t.width + i) * 4 + 4 <= t.width * t.height * 4
  {
    MulMono(j + 1, t.height, t.width);
    MulStep(j, t.width);
  }

  lemma ImageSlice(t: Rect, background: seq<Byte>, subrects: seq<Subrect>, i: nat, j: nat)
    requires |background| == 4 && (forall b <- subrects :: |b.colour| == 4) && i < t.width && j < t.height
    ensures (j * t.width + i) * 4 + 4 <= t.width * t.height * 4
    ensures Image(t, background, subrects)[(j * t.width + i) * 4..(j * t.width + i) * 4 + 4]
         == ColourAt(background, subrects, i, j)[..3] + [255]
  {
    hide Image, ColourAt;
    PixelFits(t, i, j);
    var pixels, at_ := Image(t, background, subrects), (j * t.width + i) * 4;
    ImageAt(t, background, subrects, i, j, 0);
    ImageAt(t, background, subrects, i, j, 1);
    ImageAt(t, background, subrects, i, j, 2);
    ImageAt(t, background, subrects, i, j, 3);
    assert pixels[at_..at_ + 4] == ColourAt(background, subrects, i, j)[..3] + [255];
  }

  lemma ImagePuts(t: Rect, background: seq<Byte>, subrects: seq<Subrect>, i: nat, j: nat)
    requires |background| == 4 && (forall b <- subrects :: |b.colour| == 4) && i < t.width && j < t.height
    ensures Puts(Blit(t.x, t.y, t.width, t.height, Image(t, background, subrects)), t.x + i, t.y + j,
                 ColourAt(background, subrects, i, j))
  {
    hide Image, ColourAt;
    ImageSlice(t, background, subrects, i, j);
  }

  lemma RawPuts(t: Rect, pixels: seq<Byte>, i: nat, j: nat)
    requires |pixels| == t.width * t.height * 4 && i < t.width && j < t.height
    ensures (j * t.width + i) * 4 + 4 <= |pixels|
    ensures Puts(Blit(t.x, t.y, t.width, t.height, Opaque(pixels)), t.x + i, t.y + j,
                 pixels[(j * t.width + i) * 4..(j * t.width + i) * 4 + 4])
  {
    PixelFits(t, i, j);
  }

  lemma CallPuts(t: Rect, s: State, tile: Tile, x: int, y: int)
    requires Encodable(t, s, tile) && Legible(s, tile) && Inside(t, x, y)
    ensures |TileCalls(t, s, tile)| == if tile.Again? && s.last % 2 == 1 then 0 else 1
    ensures TileCalls(t, s, tile) != [] ==>
              Puts(TileCalls(t, s, tile)[0], x, y, Meant(t, s, tile, x - t.x, y - t.y))
  {
    hide Image, ColourAt, Opaque;
    var i, j := x - t.x, y - t.y;
    if tile.Painted? {
      hide Puts;
      ImagePuts(t, Kept(tile.background, s.background), tile.subrects, i, j);
    } else if tile.Raw? {
      hide Puts;
      RawPuts(t, tile.pixels, i, j);
    }
  }

  lemma {:induction false} OverParts(a: seq<Call>, b: seq<Call>, x: int, y: int)
    ensures Over(a + b, x, y) == Over(a, x, y) + Over(b, x, y)
    decreases |a|
  {
    hide Covers;
    if a == [] {
      assert a + b == b;
    } else {
      assert (a + b)[0] == a[0] && (a + b)[1..] == a[1..] + b;
      OverParts(a[1..], b, x, y);
      var first, rest := if Covers(a[0], x, y) then [a[0]] else [], Over(a[1..], x, y);
      assert Over(a + b, x, y) == first + (rest + Over(b, x, y));
      assert first + (rest + Over(b, x, y)) == (first + rest) + Over(b, x, y);
    }
  }

  lemma OverTile(t: Rect, s: State, tile: Tile, x: int, y: int)
    requires Encodable(t, s, tile) && Legible(s, tile)
    ensures Over(TileCalls(t, s, tile), x, y) == if Inside(t, x, y) then TileCalls(t, s, tile) else []
  {
    hide Image;
    var calls := TileCalls(t, s, tile);
    assert |calls| <= 1;
    assert calls != [] ==> calls[1..] == [];
  }

  lemma OverNext(r: Rect, s: State, tiles: seq<Tile>, x: int, y: int)
    requires Sendable(r, s, tiles) && tiles != [] && Inside(r, x, y)
    ensures var cur, n := TileOf(r, SIDE, x - r.x, y - r.y), TotalTiles(r, SIDE) - s.left;
            var rest := Over(RectCalls(r, TileState(s, tiles[0]), tiles[1..]), x, y);
            Over(RectCalls(r, s, tiles), x, y) == if cur == n then TileCalls(Next(r, s), s, tiles[0]) + rest else rest
  {
    hide Over, TileCalls, TileState, Encodable, Legible, TileAt, TotalTiles, TileOf;
    var t := Next(r, s);
    OverParts(TileCalls(t, s, tiles[0]), RectCalls(r, TileState(s, tiles[0]), tiles[1..]), x, y);
    OverTile(t, s, tiles[0], x, y);
    TileCovers(r, SIDE, x, y);
    if Inside(t, x, y) {
      OnlyTile(r, SIDE, x, y, TotalTiles(r, SIDE) - s.left);
    }
  }

  lemma {:induction false} OverRect(r: Rect, s: State, tiles: seq<Tile>, x: int, y: int)
    requires Sendable(r, s, tiles) && Inside(r, x, y)
    ensures var cur, first := TileOf(r, SIDE, x - r.x, y - r.y), TotalTiles(r, SIDE) - |tiles|;
            cur < TotalTiles(r, SIDE)
            && (cur < first ==> Over(RectCalls(r, s, tiles), x, y) == [])
            && (cur >= first ==>
                  var then_ := Remembered(r, s, tiles, cur - first);
                  Encodable(TileAt(r, SIDE, cur), then_, tiles[cur - first]) && Legible(then_, tiles[cur - first])
                  && Over(RectCalls(r, s, tiles), x, y) == TileCalls(TileAt(r, SIDE, cur), then_, tiles[cur - first]))
    decreases |tiles|
  {
    hide TotalTiles, TileOf, TileAt, TileCalls, TileState, Encodable, Legible, Over, Inside;
    TileCovers(r, SIDE, x, y);
    if tiles == [] {
      NothingOver(x, y);
    } else {
      OverNext(r, s, tiles, x, y);
      OverRect(r, TileState(s, tiles[0]), tiles[1..], x, y);
    }
  }

  lemma NothingOver(x: int, y: int)
    ensures Over([], x, y) == []
  {
  }

  /** Every pixel of an encoded rectangle comes back: the only call that draws it, if any,
      is the one of the tile it lies in, and puts there the colour that was meant.  Only a
      blank tile behind a raw one is not drawn. */
  lemma EveryPixelBack(r: Rect, s: State, tiles: seq<Tile>, more: seq<Byte>, x: int, y: int) returns (cur: nat)
    requires s.left == 0 && Sendable(r, Entry(r, s), tiles) && Inside(r, x, y)
    ensures cur < TotalTiles(r, SIDE) == |tiles| && Inside(TileAt(r, SIDE, cur), x, y)
    ensures var p, t := Decoded(r, s, EncodeTiles(r, Entry(r, s), tiles) + more), TileAt(r, SIDE, cur);
            var then_ := Remembered(r, Entry(r, s), tiles, cur);
            p.status == Finished && p.rest == more && Encodable(t, then_, tiles[cur]) && Legible(then_, tiles[cur])
            && if tiles[cur].Again? && then_.last % 2 == 1 then Over(p.calls, x, y) == []
               else |Over(p.calls, x, y)| == 1
                    && Puts(Over(p.calls, x, y)[0], x, y, Meant(t, then_, tiles[cur], x - t.x, y - t.y))
  {
    hide Run, Decoded, Over, Encodable, Legible, TileCalls, EncodeTiles, RectCalls, Puts, Meant;
    RectBack(r, s, tiles, more);
    cur := TileOf(r, SIDE, x - r.x, y - r.y);
    TileCovers(r, SIDE, x, y);
    assert |tiles| == TotalTiles(r, SIDE);
    hide Sendable, TotalTiles, TileOf, TileAt;
    OverRect(r, Entry(r, s), tiles, x, y);
    var then_ := Remembered(r, Entry(r, s), tiles, cur);
    CallPuts(TileAt(r, SIDE, cur), then_, tiles[cur], x, y);
  }
}
