/** One tile and one rectangle of ZRLE encoding, and the proof that decoding an encoded
    rectangle draws the pixels that were encoded (section 7.7.6 of RFC 6143). */
module ZRLETiles {
  import opened Bytes
  import opened Resume
  import opened Arithmetic
  import opened Powers
  import opened Tiling
  import opened ZRLE

  /** What a tile draws, how many bytes it takes and the pixel buffer left. */
  datatype TileResult = BadTile | TileDone(call: Call, used: nat, buffer: seq<Byte>)

  function Image(t: Place, header: nat, r: Result): TileResult {
    match r
    case Bad => BadTile
    case Good(data, used, buffer) => TileDone(Blit(t.x, t.y, t.width, t.height, data), header + used, buffer)
  }

  /** Where a tile goes: at most 64 pixels each way. */
  type Place = t: Rect | 1 <= t.width <= SIDE && 1 <= t.height <= SIDE witness Rect(0, 0, 1, 1)

  lemma SmallTile(t: Place)
    ensures t.width * t.height * 4 <= BUFFER
  {
    MulMono(t.width, SIDE, t.height);
  }

  function RawTile(t: Place, input: seq<Byte>, buffer: seq<Byte>): TileResult
    requires |buffer| == BUFFER
  {
    SmallTile(t);
    var n := t.width * t.height;
    if |input| < n * 3 then BadTile
    else
      var after := Loaded(buffer, input, n);
      Image(t, 1, Good(after[..n * 4], n * 3, after))
  }

  function SolidTile(t: Place, input: seq<Byte>, buffer: seq<Byte>): TileResult
    requires |buffer| == BUFFER
  {
    if |input| < 3 then BadTile
    else TileDone(Fill(t.x, t.y, t.width, t.height, Loaded(buffer, input, 1)[..3]), 4, Loaded(buffer, input, 1))
  }

  function PackedTile(t: Place, size: nat, input: seq<Byte>, buffer: seq<Byte>): TileResult
    requires |buffer| == BUFFER && 2 <= size <= 16
  {
    if |input| < size * 3 then BadTile
    else
      Image(t, 1 + size * 3,
            PackedRows(input[size * 3..], Loaded(buffer, input, size), t.width, BitsPerPixel(size), t.height))
  }

  function PaletteTile(t: Place, size: nat, input: seq<Byte>, buffer: seq<Byte>): TileResult
    requires |buffer| == BUFFER && 2 <= size <= 127
  {
    if |input| < size * 3 then BadTile
    else Image(t, 1 + size * 3, PaletteRuns(input[size * 3..], Loaded(buffer, input, size), size, t.width * t.height))
  }

  function DecodeTile(t: Place, input: seq<Byte>, buffer: seq<Byte>): (r: TileResult)
    requires |buffer| == BUFFER
    ensures r.TileDone? ==> 1 <= r.used <= |input| && |r.buffer| == BUFFER
  {
    if input == [] then BadTile
    else
      var sub, rest := input[0], input[1..];
      if sub == 0 then RawTile(t, rest, buffer)
      else if sub == 1 then SolidTile(t, rest, buffer)
      else if sub <= 16 then PackedTile(t, sub, rest, buffer)
      else if sub == 128 then Image(t, 1, PlainRuns(rest, buffer, t.width * t.height))
      else if sub >= 130 then PaletteTile(t, sub - 128, rest, buffer)
      else BadTile
  }

  /** The calls made so far; after an error nothing more is drawn. */
  datatype RectResult = RectResult(ok: bool, calls: seq<Call>, rest: seq<Byte>, buffer: seq<Byte>)

  function AfterTile(call: Call, p: RectResult): RectResult {
    p.(calls := [call] + p.calls)
  }

  /** One tile after the other. */
  function DrawTiles(places: seq<Place>, input: seq<Byte>, buffer: seq<Byte>): (p: RectResult)
    requires |buffer| == BUFFER
    ensures |p.buffer| == BUFFER
  {
    if places == [] then RectResult(true, [], input, buffer)
    else
      match DecodeTile(places[0], input, buffer)
      case BadTile => RectResult(false, [], input, buffer)
      case TileDone(call, used, after) => AfterTile(call, DrawTiles(places[1..], input[used..], after))
  }

  /** The places of a rectangle's tiles, along the rows. */
  function Places(r: Rect): (p: seq<Place>)
    ensures |p| == TotalTiles(r, SIDE)
  {
    seq(TotalTiles(r, SIDE), cur requires 0 <= cur < TotalTiles(r, SIDE) => TileAt(r, SIDE, cur))
  }

  // ----- palettes --------------------------------------------------------------------------------

  /** Entry `i` of a palette of three bytes a colour. */
  function Colour(palette: seq<Byte>, i: nat): (r: seq<Byte>)
    requires i * 3 + 3 <= |palette|
    ensures |r| == 4
  {
    palette[i * 3..i * 3 + 3] + [255]
  }

  lemma EntryIsColour(buffer: seq<Byte>, palette: seq<Byte>, more: seq<Byte>, size: nat, i: nat)
    requires |buffer| == BUFFER && |palette| == size * 3 && i < size <= 127
    ensures EntryAt(Loaded(buffer, palette + more, size), i) == Colour(palette, i)
  {
    assert (palette + more)[..size * 3] == palette;
    var s := Spread(palette);
    assert EntryAt(Loaded(buffer, palette + more, size), i) == s[i * 4..i * 4 + 4];
  }

  lemma OlderEntry(buffer: seq<Byte>, input: seq<Byte>, size: nat, index: nat)
    requires |buffer| == BUFFER && size * 3 <= |input| && size <= index <= 127
    ensures EntryAt(Loaded(buffer, input, size), index) == buffer[index * 4..index * 4 + 4]
  {
    var s := Spread(input[..size * 3]);
    assert |s| == size * 4;
    assert (s + buffer[size * 4..])[index * 4..index * 4 + 4] == buffer[index * 4..index * 4 + 4];
  }

  /** An index is drawn from the palette just read, whatever was in the buffer before,
      exactly when it lies inside the palette.  Run-length tiles refuse only indexes above
      the palette size, and packed tiles refuse none, so that an index from the size on
      shows an older pixel. */
  lemma FreshExactlyInside(input: seq<Byte>, size: nat, index: nat)
    requires size * 3 <= |input| && size <= 127 && index <= 127
    ensures index < size
       <==> forall a, b | |a| == BUFFER && |b| == BUFFER
              :: EntryAt(Loaded(a, input, size), index) == EntryAt(Loaded(b, input, size), index)
  {
    if index < size {
      forall a, b | |a| == BUFFER && |b| == BUFFER
        ensures EntryAt(Loaded(a, input, size), index) == EntryAt(Loaded(b, input, size), index)
      {
        assert input[..size * 3] + input[size * 3..] == input;
        EntryIsColour(a, input[..size * 3], input[size * 3..], size, index);
        EntryIsColour(b, input[..size * 3], input[size * 3..], size, index);
      }
    } else {
      var a: seq<Byte> := seq(BUFFER, _ => 0);
      var b: seq<Byte> := seq(BUFFER, _ => 1);
      OlderEntry(a, input, size, index);
      OlderEntry(b, input, size, index);
      hide Loaded, EntryAt;
      assert a[index * 4..index * 4 + 4][0] == 0 && b[index * 4..index * 4 + 4][0] == 1;
    }
  }

  /** Palette size 2, one run of index 2: accepted, and drawn from what the buffer held. */
  lemma StaleEntryDrawn(buffer: seq<Byte>)
    requires |buffer| == BUFFER
    ensures PaletteRuns([2], buffer, 2, 1) == Good(buffer[8..12], 1, buffer)
  {
    assert PaletteRuns([2][1..], buffer, 2, 0) == Good([], 0, buffer);
    assert Repeat(EntryAt(buffer, 2), 1) == Repeat(EntryAt(buffer, 2), 0) + EntryAt(buffer, 2);
    assert [] + EntryAt(buffer, 2) + [] == EntryAt(buffer, 2);
  }

  /** Palette size 5, a packed pixel of index 15: drawn from ten entries behind the palette. */
  lemma StalePackedDrawn(t: Place, palette: seq<Byte>, buffer: seq<Byte>)
    requires |buffer| == BUFFER && |palette| == 15 && t.width == 1 && t.height == 1
    ensures PackedTile(t, 5, palette + [0xf0], buffer)
         == TileDone(Blit(t.x, t.y, 1, 1, buffer[60..64]), 17, Loaded(buffer, palette + [0xf0], 5))
  {
    var input := palette + [0xf0];
    var after := Loaded(buffer, input, 5);
    assert input[15..] == [0xf0] && RowBytes(1, FourBits) == 1;
    OlderEntry(buffer, input, 5, 15);
    OnePackedPixel(0xf0, after);
    hide Loaded, EntryAt, PackedRows;
  }

  lemma OnePackedPixel(byte: Byte, buffer: seq<Byte>)
    requires |buffer| == BUFFER
    ensures PackedRows([byte], buffer, 1, FourBits, 1) == Good(EntryAt(buffer, byte as int / 16), 1, buffer)
  {
    assert Power(16, 1) == 16 * Power(16, 0) == 16;
    assert IndexIn([byte], FourBits, 0) == Digit(byte, 16, 1) == byte as int / 16 % 16;
    assert RowPixels([byte], buffer, 1, FourBits, 0) == [];
    var pixel := EntryAt(buffer, byte as int / 16);
    assert RowPixels([byte], buffer, 1, FourBits, 1) == [] + pixel == pixel;
    assert [byte][..1] == [byte] && [byte][1..] == [];
    assert PackedRows([], buffer, 1, FourBits, 0) == Good([], 0, buffer);
    assert pixel + [] == pixel;
  }

  function ColouredRuns(runs: seq<IndexRun>, palette: seq<Byte>, size: nat): seq<Byte>
    requires |palette| == size * 3 && Within(runs, size)
  {
    if runs == [] then []
    else Repeat(Colour(palette, runs[0].index), runs[0].length) + ColouredRuns(runs[1..], palette, size)
  }

  lemma {:induction false} RunsColoured(runs: seq<IndexRun>, buffer: seq<Byte>, palette: seq<Byte>, more: seq<Byte>,
                                        size: nat)
    requires |buffer| == BUFFER && |palette| == size * 3 && size <= 127 && Within(runs, size)
    ensures ExpandedIndexes(runs, Loaded(buffer, palette + more, size)) == ColouredRuns(runs, palette, size)
    decreases |runs|
  {
    if runs != [] {
      EntryIsColour(buffer, palette, more, size, runs[0].index);
      RunsColoured(runs[1..], buffer, palette, more, size);
      hide EntryAt, Loaded, Colour, Repeat;
    }
  }

  ghost predicate InPalette(row: seq<nat>, size: nat) {
    forall x :: 0 <= x < |row| ==> row[x] < size
  }

  ghost predicate AllInPalette(rows: seq<seq<nat>>, tilew: nat, size: nat) {
    forall y :: 0 <= y < |rows| ==> |rows[y]| == tilew && InPalette(rows[y], size)
  }

  ghost function ColouredRow(row: seq<nat>, palette: seq<Byte>, size: nat): seq<Byte>
    requires |palette| == size * 3 && InPalette(row, size)
  {
    if row == [] then []
    else ColouredRow(row[..|row| - 1], palette, size) + Colour(palette, row[|row| - 1])
  }

  ghost function ColouredRows(rows: seq<seq<nat>>, tilew: nat, palette: seq<Byte>, size: nat): seq<Byte>
    requires |palette| == size * 3 && AllInPalette(rows, tilew, size)
  {
    if rows == [] then [] else ColouredRow(rows[0], palette, size) + ColouredRows(rows[1..], tilew, palette, size)
  }

  lemma LastColoured(row: seq<nat>, buffer: seq<Byte>, palette: seq<Byte>, more: seq<Byte>, size: nat)
    requires |buffer| == BUFFER && |palette| == size * 3 && size <= 16 && InPalette(row, size) && row != []
    ensures EntryAt(Loaded(buffer, palette + more, size), row[|row| - 1] % 256) == Colour(palette, row[|row| - 1])
    ensures InPalette(row[..|row| - 1], size)
  {
    EntryIsColour(buffer, palette, more, size, row[|row| - 1]);
    assert row[|row| - 1] % 256 == row[|row| - 1];
    hide EntryAt, Loaded, Colour;
  }

  lemma {:induction false} RowColoured(row: seq<nat>, buffer: seq<Byte>, palette: seq<Byte>, more: seq<Byte>, size: nat)
    requires |buffer| == BUFFER && |palette| == size * 3 && size <= 16 && InPalette(row, size)
    ensures IndexedPixels(row, Loaded(buffer, palette + more, size)) == ColouredRow(row, palette, size)
    decreases |row|
  {
    if row != [] {
      LastColoured(row, buffer, palette, more, size);
      hide EntryAt, Loaded, Colour, InPalette;
      RowColoured(row[..|row| - 1], buffer, palette, more, size);
    }
  }

  lemma {:induction false} RowsColoured(rows: seq<seq<nat>>, tilew: nat, buffer: seq<Byte>, palette: seq<Byte>,
                                        more: seq<Byte>,
                                        size: nat)
    requires |buffer| == BUFFER && |palette| == size * 3 && size <= 16 && AllInPalette(rows, tilew, size)
    ensures RowsPixels(rows, Loaded(buffer, palette + more, size)) == ColouredRows(rows, tilew, palette, size)
    decreases |rows|
  {
    if rows != [] {
      RowColoured(rows[0], buffer, palette, more, size);
      RowsColoured(rows[1..], tilew, buffer, palette, more, size);
      hide Loaded, IndexedPixels, ColouredRow, InPalette;
    }
  }

  lemma PaletteFitsDepth(rows: seq<seq<nat>>, tilew: nat, size: nat)
    requires 2 <= size <= 16 && AllInPalette(rows, tilew, size)
    ensures IndexRows(rows, tilew, BitsPerPixel(size))
  {
    forall i | 0 <= i < |rows| ensures Indexes(rows[i], BitsPerPixel(size)) {
      assert InPalette(rows[i], size);
    }
  }

  // ----- decoding undoes encoding: one tile -----------------------------------------------------------

  datatype Tile =
    | Raw(pixels: seq<Byte>)
    | Solid(colour: seq<Byte>)
    | Packed(palette: seq<Byte>, size: nat, rows: seq<seq<nat>>)
    | Plain(runs: seq<PixelRun>)
    | Indexed(palette: seq<Byte>, size: nat, indexes: seq<IndexRun>)

  /** The tile describes `width` by `height` pixels. */
  ghost predicate WellFormed(tile: Tile, width: nat, height: nat) {
    match tile
    case Raw(pixels) => |pixels| == width * height * 3
    case Solid(colour) => |colour| == 3
    case Packed(palette, size, rows) =>
      2 <= size <= 16 && |palette| == size * 3 && |rows| == height && AllInPalette(rows, width, size)
    case Plain(runs) => TotalLength(runs) == width * height
    case Indexed(palette, size, indexes) =>
      2 <= size <= 127 && |palette| == size * 3 && Within(indexes, size) && TotalIndexed(indexes) == width * height
  }

  ghost function Encode(tile: Tile, width: nat, height: nat): (bytes: seq<Byte>)
    requires WellFormed(tile, width, height)
  {
    match tile
    case Raw(pixels) => [0] + pixels
    case Solid(colour) => [1] + colour
    case Packed(palette, size, rows) => [size] + (palette + PackRows(rows, BitsPerPixel(size)))
    case Plain(runs) => [128] + EncodeRuns(runs)
    case Indexed(palette, size, indexes) => [size + 128] + (palette + EncodeIndexRuns(indexes))
  }

  ghost function TileCall(tile: Tile, t: Place): Call
    requires WellFormed(tile, t.width, t.height)
  {
    match tile
    case Raw(pixels) => Blit(t.x, t.y, t.width, t.height, Spread(pixels))
    case Solid(colour) => Fill(t.x, t.y, t.width, t.height, colour)
    case Packed(palette, size, rows) => Blit(t.x, t.y, t.width, t.height, ColouredRows(rows, t.width, palette, size))
    case Plain(runs) => Blit(t.x, t.y, t.width, t.height, Expanded(runs))
    case Indexed(palette, size, indexes) =>
      Blit(t.x, t.y, t.width, t.height, ColouredRuns(indexes, palette, size))
  }

  predicate Shows(r: TileResult, call: Call, used: nat) {
    r.TileDone? && r.call == call && r.used == used
  }

  lemma RawBack(t: Place, pixels: seq<Byte>, more: seq<Byte>, buffer: seq<Byte>)
    requires |buffer| == BUFFER && |pixels| == t.width * t.height * 3
    ensures Shows(RawTile(t, pixels + more, buffer), Blit(t.x, t.y, t.width, t.height, Spread(pixels)), 1 + |pixels|)
  {
    SmallTile(t);
    var n := t.width * t.height;
    assert (pixels + more)[..n * 3] == pixels;
    assert Loaded(buffer, pixels + more, n)[..n * 4] == Spread(pixels);
  }

  lemma SolidBack(t: Place, colour: seq<Byte>, more: seq<Byte>, buffer: seq<Byte>)
    requires |buffer| == BUFFER && |colour| == 3
    ensures Shows(SolidTile(t, colour + more, buffer), Fill(t.x, t.y, t.width, t.height, colour), 4)
  {
    OnePixel(buffer, colour + more);
    var after := Loaded(buffer, colour + more, 1);
    assert after[..3] == EntryAt(after, 0)[..3] == colour;
  }

  lemma PaletteThenRest(palette: seq<Byte>, body: seq<Byte>, more: seq<Byte>)
    ensures palette + body + more == palette + Ahead(body, more)
    ensures (palette + body + more)[|palette|..] == Ahead(body, more)
  {
  }

  lemma PackedBody(tilew: nat, palette: seq<Byte>, size: nat, rows: seq<seq<nat>>, more: seq<Byte>, buffer: seq<Byte>)
    requires |buffer| == BUFFER && 2 <= size <= 16 && |palette| == size * 3 && AllInPalette(rows, tilew, size)
    ensures var bits := BitsPerPixel(size);
            var behind := Ahead(PackRows(rows, bits), more);
            Draws(PackedRows(behind, Loaded(buffer, palette + behind, size), tilew, bits, |rows|),
                  ColouredRows(rows, tilew, palette, size), |PackRows(rows, bits)|)
  {
    var bits := BitsPerPixel(size);
    var behind := Ahead(PackRows(rows, bits), more);
    PaletteFitsDepth(rows, tilew, size);
    PackedRowsBack(rows, more, Loaded(buffer, palette + behind, size), tilew, bits);
    RowsColoured(rows, tilew, buffer, palette, behind, size);
    hide Ahead, Loaded, PackRows, PackedRows, ColouredRows, RowsPixels, AllInPalette, IndexRows, BitsPerPixel, Draws;
  }

  lemma ImageShows(t: Place, header: nat, r: Result, data: seq<Byte>, used: nat)
    requires Draws(r, data, used)
    ensures Shows(Image(t, header, r), Blit(t.x, t.y, t.width, t.height, data), header + used)
  {
  }

  lemma PackedBack(t: Place, palette: seq<Byte>, size: nat, rows: seq<seq<nat>>, more: seq<Byte>, buffer: seq<Byte>)
    requires |buffer| == BUFFER && 2 <= size <= 16 && |palette| == size * 3 && |rows| == t.height
    requires AllInPalette(rows, t.width, size)
    ensures var body := PackRows(rows, BitsPerPixel(size));
            Shows(PackedTile(t, size, palette + body + more, buffer),
                  Blit(t.x, t.y, t.width, t.height, ColouredRows(rows, t.width, palette, size)), 1 + |palette| + |body|)
  {
    hide Ahead, Loaded, PackRows, PackedRows, ColouredRows, BitsPerPixel, AllInPalette, Draws, Shows, Image;
    var bits := BitsPerPixel(size);
    var behind := Ahead(PackRows(rows, bits), more);
    PaletteThenRest(palette, PackRows(rows, bits), more);
    PackedBody(t.width, palette, size, rows, more, buffer);
    ImageShows(t, 1 + size * 3, PackedRows(behind, Loaded(buffer, palette + behind, size), t.width, bits, |rows|),
               ColouredRows(rows, t.width, palette, size), |PackRows(rows, bits)|);
  }

  lemma IndexedBody(palette: seq<Byte>, size: nat, runs: seq<IndexRun>, more: seq<Byte>, buffer: seq<Byte>)
    requires |buffer| == BUFFER && 2 <= size <= 127 && |palette| == size * 3 && Within(runs, size)
    ensures var behind := Ahead(EncodeIndexRuns(runs), more);
            Draws(PaletteRuns(behind, Loaded(buffer, palette + behind, size), size, TotalIndexed(runs)),
                  ColouredRuns(runs, palette, size), |EncodeIndexRuns(runs)|)
  {
    hide Ahead, Loaded, EncodeIndexRuns, PaletteRuns, ColouredRuns, ExpandedIndexes, Within, TotalIndexed, Draws;
    var behind := Ahead(EncodeIndexRuns(runs), more);
    PaletteRunsBack(runs, more, Loaded(buffer, palette + behind, size), size);
    RunsColoured(runs, buffer, palette, behind, size);
  }

  lemma IndexedBack(t: Place, palette: seq<Byte>, size: nat, runs: seq<IndexRun>, more: seq<Byte>, buffer: seq<Byte>)
    requires |buffer| == BUFFER && 2 <= size <= 127 && |palette| == size * 3 && Within(runs, size)
    requires TotalIndexed(runs) == t.width * t.height
    ensures Shows(PaletteTile(t, size, palette + EncodeIndexRuns(runs) + more, buffer),
                  Blit(t.x, t.y, t.width, t.height, ColouredRuns(runs, palette, size)),
                  1 + |palette| + |EncodeIndexRuns(runs)|)
  {
    hide Ahead, Loaded, EncodeIndexRuns, PaletteRuns, ColouredRuns, Within, TotalIndexed, Draws, Shows, Image;
    var behind := Ahead(EncodeIndexRuns(runs), more);
    PaletteThenRest(palette, EncodeIndexRuns(runs), more);
    IndexedBody(palette, size, runs, more, buffer);
    ImageShows(t, 1 + size * 3, PaletteRuns(behind, Loaded(buffer, palette + behind, size), size, TotalIndexed(runs)),
               ColouredRuns(runs, palette, size), |EncodeIndexRuns(runs)|);
  }

  lemma SubencodingPicks(t: Place, sub: Byte, rest: seq<Byte>, buffer: seq<Byte>)
    requires |buffer| == BUFFER
    ensures DecodeTile(t, [sub] + rest, buffer)
         == (if sub == 0 then RawTile(t, rest, buffer)
             else if sub == 1 then SolidTile(t, rest, buffer)
             else if sub <= 16 then PackedTile(t, sub, rest, buffer)
             else if sub == 128 then Image(t, 1, PlainRuns(rest, buffer, t.width * t.height))
             else if sub >= 130 then PaletteTile(t, sub - 128, rest, buffer)
             else BadTile)
  {
    hide RawTile, SolidTile, PackedTile, PaletteTile, PlainRuns;
    assert ([sub] + rest)[1..] == rest;
  }

  lemma PlainBack(t: Place, runs: seq<PixelRun>, more: seq<Byte>, buffer: seq<Byte>)
    requires |buffer| == BUFFER && TotalLength(runs) == t.width * t.height
    ensures Shows(Image(t, 1, PlainRuns(EncodeRuns(runs) + more, buffer, t.width * t.height)),
                  Blit(t.x, t.y, t.width, t.height, Expanded(runs)), 1 + |EncodeRuns(runs)|)
  {
    PlainRunsBack(runs, more, buffer);
    hide PlainRuns, EncodeRuns, Expanded;
  }

  /** A tile in front of anything else is drawn with its pixels, from just its own bytes. */
  lemma TileBack(tile: Tile, t: Place, more: seq<Byte>, buffer: seq<Byte>)
    requires |buffer| == BUFFER && WellFormed(tile, t.width, t.height)
    ensures Shows(DecodeTile(t, Encode(tile, t.width, t.height) + more, buffer), TileCall(tile, t),
                  |Encode(tile, t.width, t.height)|)
  {
    hide RawTile, SolidTile, PackedTile, PaletteTile, PlainRuns, DecodeTile, Shows;
    var sub, body := Encode(tile, t.width, t.height)[0], Encode(tile, t.width, t.height)[1..];
    assert Encode(tile, t.width, t.height) == [sub] + body;
    assert [sub] + body + more == [sub] + (body + more);
    SubencodingPicks(t, sub, body + more, buffer);
    match tile
    case Raw(pixels) =>
      RawBack(t, pixels, more, buffer);
    case Solid(colour) =>
      SolidBack(t, colour, more, buffer);
    case Packed(palette, size, rows) =>
      PackedBack(t, palette, size, rows, more, buffer);
    case Plain(runs) =>
      PlainBack(t, runs, more, buffer);
    case Indexed(palette, size, indexes) =>
      IndexedBack(t, palette, size, indexes, more, buffer);
  }

  // ----- decoding undoes encoding: a rectangle -----------------------------------------------------------

  ghost predicate FitTiles(places: seq<Place>, tiles: seq<Tile>) {
    |tiles| == |places| && forall i :: 0 <= i < |tiles| ==> WellFormed(tiles[i], places[i].width, places[i].height)
  }

  ghost function EncodeTiles(places: seq<Place>, tiles: seq<Tile>): seq<Byte>
    requires FitTiles(places, tiles)
    decreases |tiles|
  {
    if tiles == [] then []
    else Encode(tiles[0], places[0].width, places[0].height) + EncodeTiles(places[1..], tiles[1..])
  }

  ghost function TileCalls(places: seq<Place>, tiles: seq<Tile>): seq<Call>
    requires FitTiles(places, tiles)
    decreases |tiles|
  {
    if tiles == [] then [] else [TileCall(tiles[0], places[0])] + TileCalls(places[1..], tiles[1..])
  }

  ghost predicate Back(p: RectResult, calls: seq<Call>, rest: seq<Byte>) {
    p.ok && p.calls == calls && p.rest == rest
  }

  lemma TileTurn(places: seq<Place>, tile: Tile, tail: seq<Byte>, buffer: seq<Byte>) returns (after: seq<Byte>)
    requires |buffer| == BUFFER && places != [] && WellFormed(tile, places[0].width, places[0].height)
    ensures |after| == BUFFER
    ensures DrawTiles(places, Encode(tile, places[0].width, places[0].height) + tail, buffer)
         == AfterTile(TileCall(tile, places[0]), DrawTiles(places[1..], tail, after))
  {
    var t := places[0];
    var bytes := Encode(tile, t.width, t.height);
    TileBack(tile, t, tail, buffer);
    after := DecodeTile(t, bytes + tail, buffer).buffer;
    assert (bytes + tail)[|bytes|..] == tail;
    hide DecodeTile, Encode, TileCall, WellFormed;
  }

  ghost predicate TilesBack(places: seq<Place>, tiles: seq<Tile>, more: seq<Byte>, buffer: seq<Byte>)
    requires |buffer| == BUFFER && FitTiles(places, tiles)
  {
    Back(DrawTiles(places, EncodeTiles(places, tiles) + more, buffer), TileCalls(places, tiles), more)
  }

  lemma NoTiles(more: seq<Byte>, buffer: seq<Byte>)
    requires |buffer| == BUFFER
    ensures TilesBack([], [], more, buffer)
  {
    assert [] + more == more;
  }

  lemma TilesFirst(places: seq<Place>, tiles: seq<Tile>, more: seq<Byte>)
    requires FitTiles(places, tiles) && tiles != []
    ensures FitTiles(places[1..], tiles[1..]) && WellFormed(tiles[0], places[0].width, places[0].height)
    ensures EncodeTiles(places, tiles) + more
         == Encode(tiles[0], places[0].width, places[0].height) + (EncodeTiles(places[1..], tiles[1..]) + more)
    ensures TileCalls(places, tiles) == [TileCall(tiles[0], places[0])] + TileCalls(places[1..], tiles[1..])
  {
    hide Encode, TileCall, WellFormed;
    Behind(Encode(tiles[0], places[0].width, places[0].height), EncodeTiles(places[1..], tiles[1..]), more);
  }

  lemma AfterBack(call: Call, p: RectResult, calls: seq<Call>, rest: seq<Byte>)
    requires Back(p, calls, rest)
    ensures Back(AfterTile(call, p), [call] + calls, rest)
  {
  }

  /** Decoding an encoded rectangle draws every tile in its place, in order, with the pixels
      that were encoded, and leaves exactly the bytes behind the encoding. */
  lemma {:induction false} RectBack(places: seq<Place>, tiles: seq<Tile>, more: seq<Byte>, buffer: seq<Byte>)
    requires |buffer| == BUFFER && FitTiles(places, tiles)
    ensures TilesBack(places, tiles, more, buffer)
    decreases |tiles|
  {
    if tiles == [] {
      NoTiles(more, buffer);
    } else {
      TilesFirst(places, tiles, more);
      hide FitTiles, WellFormed, DrawTiles, EncodeTiles, Encode, TileCalls, TileCall, AfterTile, Back;
      var tail := EncodeTiles(places[1..], tiles[1..]) + more;
      var after := TileTurn(places, tiles[0], tail, buffer);
      RectBack(places[1..], tiles[1..], more, after);
      AfterBack(TileCall(tiles[0], places[0]), DrawTiles(places[1..], tail, after),
                TileCalls(places[1..], tiles[1..]), more);
    }
  }

  // ----- every pixel of a rectangle ----------------------------------------------------------------------

  lemma {:induction false} CallOfTile(places: seq<Place>, tiles: seq<Tile>, k: nat)
    requires FitTiles(places, tiles) && k < |tiles|
    ensures |TileCalls(places, tiles)| == |tiles| && WellFormed(tiles[k], places[k].width, places[k].height)
    ensures TileCalls(places, tiles)[k] == TileCall(tiles[k], places[k])
    decreases k
  {
    hide TileCall, WellFormed;
    CallCount(places, tiles);
    if k > 0 {
      assert FitTiles(places[1..], tiles[1..]);
      CallOfTile(places[1..], tiles[1..], k - 1);
    }
  }

  lemma {:induction false} CallCount(places: seq<Place>, tiles: seq<Tile>)
    requires FitTiles(places, tiles)
    ensures |TileCalls(places, tiles)| == |tiles|
    decreases |tiles|
  {
    hide TileCall, WellFormed;
    if tiles != [] {
      assert FitTiles(places[1..], tiles[1..]);
      CallCount(places[1..], tiles[1..]);
    }
  }

  /** Call `cur` of the decoded rectangle is what tile `cur` encodes, and it is the only one
      that covers the pixel. */
  ghost predicate DrawnOnce(r: Rect, tiles: seq<Tile>, calls: seq<Call>, x: int, y: int, cur: nat)
    requires FitTiles(Places(r), tiles) && cur < TotalTiles(r, SIDE)
  {
    && |calls| == TotalTiles(r, SIDE) && Inside(TileAt(r, SIDE, cur), x, y)
    && calls[cur] == TileCall(tiles[cur], TileAt(r, SIDE, cur))
    && forall k :: 0 <= k < |calls| && k != cur ==> !Inside(TileAt(r, SIDE, k), x, y)
  }

  /** Every pixel of an encoded rectangle comes back: exactly one of the calls covers it,
      the call that draws, in its place, the tile that was encoded there. */
  lemma EveryPixelBack(r: Rect, tiles: seq<Tile>, more: seq<Byte>, buffer: seq<Byte>, x: int, y: int) returns (cur: nat)
    requires |buffer| == BUFFER && FitTiles(Places(r), tiles) && Inside(r, x, y)
    ensures cur < TotalTiles(r, SIDE)
    ensures var p := DrawTiles(Places(r), EncodeTiles(Places(r), tiles) + more, buffer);
            p.ok && p.rest == more && DrawnOnce(r, tiles, p.calls, x, y, cur)
  {
    var places := Places(r);
    RectBack(places, tiles, more, buffer);
    cur := TileOf(r, SIDE, x - r.x, y - r.y);
    TileCovers(r, SIDE, x, y);
    CallOfTile(places, tiles, cur);
    hide FitTiles, EncodeTiles, TileCalls, TileCall, DrawTiles, Inside, TotalTiles, TileOf;
    forall k | 0 <= k < TotalTiles(r, SIDE) && k != cur ensures !Inside(TileAt(r, SIDE, k), x, y) {
      if Inside(TileAt(r, SIDE, k), x, y) {
        OnlyTile(r, SIDE, x, y, k);
      }
    }
  }
}
