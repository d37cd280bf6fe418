/** The ZRLE decoder (pond-sec/app/static/novnc/core/decoders/zrle.js): loops that fill the
    shared pixel and tile buffers, tile after tile. */
module ZRLEDecoding {
  import opened Bytes
  import opened Resume
  import opened Arithmetic
  import opened Powers
  import opened Screen
  import opened Tiling
  import opened ZRLE
  import opened ZRLETiles

  /** The inflated bytes still to come; asking for more than that throws. */
  class Inflator {
    var stream: seq<Byte>

    constructor (input: seq<Byte>)
      ensures stream == input
    {
      stream := input;
    }

    method Inflate(expected: nat) returns (ok: bool, bytes: seq<Byte>)
      modifies this
      ensures ok == (expected <= |old(stream)|)
      ensures ok ==> bytes == old(stream)[..expected] && stream == old(stream)[expected..]
      ensures !ok ==> stream == old(stream)
    {
      if |stream| < expected {
        return false, [];
      }
      bytes := stream[..expected];
      stream := stream[expected..];
      ok := true;
    }
  }

  // ----- about the loops ------------------------------------------------------------------------

  function Longer(run: Run, length: nat, used: nat): Run {
    match run case NoRun => NoRun case RunOf(l, u) => RunOf(l + length, u + used)
  }

  function WithPixel(buffer: seq<Byte>, i: nat, pixel: seq<Byte>): seq<Byte>
    requires i + 4 <= |buffer|
  {
    buffer[..i] + pixel + buffer[i + 4..]
  }

  /** The buffer when `i` bytes have been written. */
  function Partly(before: seq<Byte>, bytes: seq<Byte>, i: nat): seq<Byte>
    requires i <= |bytes| / 3 * 4 <= |before|
  {
    Spread(bytes)[..i] + before[i..]
  }

  lemma LoadBegins(before: seq<Byte>, bytes: seq<Byte>)
    requires |bytes| / 3 * 4 <= |before|
    ensures Partly(before, bytes, 0) == before
  {
  }

  lemma LoadGoesOn(before: seq<Byte>, bytes: seq<Byte>, i: nat, j: nat)
    requires i % 4 == 0 && i < |bytes| / 3 * 4 <= |before| && j == i / 4 * 3
    ensures i + 4 <= |bytes| / 3 * 4 && j + 3 <= |bytes|
    ensures WithPixel(Partly(before, bytes, i), i, [bytes[j], bytes[j + 1], bytes[j + 2], 255])
         == Partly(before, bytes, i + 4)
  {
    var s := Spread(bytes);
    assert s[..i + 4] == s[..i] + [bytes[j], bytes[j + 1], bytes[j + 2], 255];
    hide Spread;
    assert Partly(before, bytes, i)[..i] == s[..i];
    assert Partly(before, bytes, i)[i + 4..] == before[i + 4..];
  }

  lemma LoadEnds(before: seq<Byte>, input: seq<Byte>, pixels: nat)
    requires |before| == BUFFER && pixels * 4 <= BUFFER && pixels * 3 <= |input|
    ensures Partly(before, input[..pixels * 3], pixels * 4) == Loaded(before, input, pixels)
  {
  }

  lemma BeforeBefore(a: seq<Byte>, m: nat, b: seq<Byte>, n: nat, r: Result)
    ensures Before(a, m, Before(b, n, r)) == Before(a + b, m + n, r)
  {
    if r.Good? {
      assert a + (b + r.data) == a + b + r.data;
    }
  }

  lemma RepeatNext(pixel: seq<Byte>, n: nat)
    requires |pixel| == 4
    ensures Repeat(pixel, n + 1) == Repeat(pixel, n) + pixel
  {
  }

  /** The bits of `byte` from bit `shift` on, masked to one index. */
  function Shifted(byte: Byte, shift: nat, bits: Depth): (r: nat)
    ensures r < 16
  {
    PowersOf256();
    byte / Power(2, shift) % Power(2, Bits(bits))
  }

  lemma {:induction false} PowerOfTwo(bits: Depth, j: nat)
    ensures Power(2, Bits(bits) * j) == Power(Base(bits), j)
  {
    if j > 0 {
      PowerOfTwo(bits, j - 1);
      PowerPlus(2, Bits(bits), Bits(bits) * (j - 1));
      SmallPowers(bits);
      assert Bits(bits) + Bits(bits) * (j - 1) == Bits(bits) * j;
    }
  }

  lemma SmallPowers(bits: Depth)
    ensures Power(2, Bits(bits)) == Base(bits)
  {
    PowersOf256();
    assert Power(2, 1) == 2 && Power(2, 2) == 4 && Power(2, 3) == 8 && Power(2, 4) == 16;
  }

  /** Between two pixels of a packed row: the byte of the last one is at hand. */
  ghost predicate Cursor(bits: Depth, row: seq<Byte>, x: nat, encoded: Byte, shift: int, stream: seq<Byte>) {
    var c := if x == 0 then 0 else (x - 1) / PerByte(bits);
    c < |row| && encoded == row[c] && stream == row[c + 1..] && shift == 8 - Bits(bits) * (x - c * PerByte(bits) + 1)
  }

  /** The byte of pixel `x` is at hand. */
  ghost predicate InByte(bits: Depth, row: seq<Byte>, x: nat, encoded: Byte, shift: int, stream: seq<Byte>) {
    var c := x / PerByte(bits);
    c < |row| && encoded == row[c] && stream == row[c + 1..] && shift == 8 - Bits(bits) * (x % PerByte(bits) + 1)
  }

  lemma CursorBegins(bits: Depth, first: Byte, rest: seq<Byte>)
    ensures Cursor(bits, [first] + rest, 0, first, 8 - Bits(bits), rest)
  {
  }

  lemma BytesOfColumns(bits: Depth, x: nat)
    requires x > 0
    ensures var c, k := (x - 1) / PerByte(bits), x - (x - 1) / PerByte(bits) * PerByte(bits);
            && 1 <= k <= PerByte(bits)
            && (if k == PerByte(bits) then x / PerByte(bits) == c + 1 && x % PerByte(bits) == 0
                else x / PerByte(bits) == c && x % PerByte(bits) == k)
  {
  }

  /** The shift runs out exactly when the pixel lies in the next byte. */
  lemma CursorTurns(bits: Depth, row: seq<Byte>, x: nat, encoded: Byte, shift: int, stream: seq<Byte>)
    requires Cursor(bits, row, x, encoded, shift, stream)
    ensures shift >= 0 ==> InByte(bits, row, x, encoded, shift, stream)
    ensures shift < 0 && stream == [] ==> x / PerByte(bits) >= |row|
    ensures shift < 0 && stream != [] ==> InByte(bits, row, x, stream[0], 8 - Bits(bits), stream[1..])
  {
    if x > 0 {
      BytesOfColumns(bits, x);
    }
  }

  lemma CursorNext(bits: Depth, row: seq<Byte>, x: nat, encoded: Byte, shift: int, stream: seq<Byte>)
    requires InByte(bits, row, x, encoded, shift, stream)
    ensures Cursor(bits, row, x + 1, encoded, shift - Bits(bits), stream)
  {
    Divide(x, PerByte(bits));
  }

  lemma CursorEnds(bits: Depth, row: seq<Byte>, tilew: nat, encoded: Byte, shift: int, stream: seq<Byte>)
    requires Cursor(bits, row, tilew, encoded, shift, stream) && tilew > 0
    ensures RowBytes(tilew, bits) <= |row| && stream == row[RowBytes(tilew, bits)..] && shift < 8 - Bits(bits)
  {
    BytesOfColumns(bits, tilew);
    LastByte(tilew, bits);
  }

  lemma LastByte(tilew: nat, bits: Depth)
    requires tilew > 0
    ensures RowBytes(tilew, bits) == (tilew - 1) / PerByte(bits) + 1
  {
  }

  /** Shifting and masking picks the index of column `x`. */
  lemma ShiftIsIndex(bits: Depth, row: seq<Byte>, x: nat, encoded: Byte, shift: int, stream: seq<Byte>)
    requires InByte(bits, row, x, encoded, shift, stream)
    ensures x / PerByte(bits) < |row| && shift >= 0 && Shifted(encoded, shift, bits) == IndexIn(row, bits, x)
  {
    var j := PerByte(bits) - 1 - x % PerByte(bits);
    Divide(x, PerByte(bits));
    assert Bits(bits) * j == shift;
    PowerOfTwo(bits, j);
    SmallPowers(bits);
    hide Power;
  }

  /** The tile holds what was there before and `x` pixels of the row, if the whole row arrives. */
  ghost predicate RowShown(tile: seq<Byte>, before: seq<Byte>, row: seq<Byte>, palette: seq<Byte>, tilew: nat,
                           bits: Depth, x: nat)
    requires |palette| == BUFFER && x <= tilew
  {
    var n := RowBytes(tilew, bits);
    n <= |row| ==> tile == before + RowPixels(row[..n], palette, tilew, bits, x)
  }

  lemma NothingShown(before: seq<Byte>, row: seq<Byte>, palette: seq<Byte>, tilew: nat, bits: Depth)
    requires |palette| == BUFFER
    ensures RowShown(before, before, row, palette, tilew, bits, 0)
  {
  }

  lemma AllShown(tile: seq<Byte>, before: seq<Byte>, row: seq<Byte>, palette: seq<Byte>, tilew: nat, bits: Depth)
    requires |palette| == BUFFER && RowShown(tile, before, row, palette, tilew, bits, tilew)
             && RowBytes(tilew, bits) <= |row|
    ensures tile == before + RowPixels(row[..RowBytes(tilew, bits)], palette, tilew, bits, tilew)
  {
  }

  /** The byte of pixel `x` is part of the row at hand. */
  ghost predicate Arrived(bits: Depth, row: seq<Byte>, x: nat) {
    x / PerByte(bits) < |row|
  }

  /** The palette entry of pixel `x`. */
  ghost function EntryOf(palette: seq<Byte>, row: seq<Byte>, bits: Depth, x: nat): seq<Byte>
    requires |palette| == BUFFER && Arrived(bits, row, x)
  {
    EntryAt(palette, IndexIn(row, bits, x))
  }

  lemma RowArrives(row: seq<Byte>, tilew: nat, bits: Depth, x: nat)
    requires x < tilew
    ensures RowBytes(tilew, bits) <= |row| ==> Arrived(bits, row, x)
  {
    RowFits(tilew, bits, x);
  }

  lemma NextShown(tile: seq<Byte>, before: seq<Byte>, row: seq<Byte>, palette: seq<Byte>, tilew: nat, bits: Depth,
                  x: nat)
    requires |palette| == BUFFER && x < tilew && Arrived(bits, row, x)
    requires RowShown(tile, before, row, palette, tilew, bits, x)
    ensures RowShown(tile + EntryOf(palette, row, bits, x), before, row, palette, tilew, bits, x + 1)
  {
    var n := RowBytes(tilew, bits);
    RowFits(tilew, bits, x);
    if n <= |row| {
      var pixels := RowPixels(row[..n], palette, tilew, bits, x);
      assert IndexIn(row[..n], bits, x) == IndexIn(row, bits, x);
      hide IndexIn, EntryAt, RowBytes;
      assert before + pixels + EntryAt(palette, IndexIn(row, bits, x))
          == before + (pixels + EntryAt(palette, IndexIn(row, bits, x)));
    }
  }

  lemma SuffixOfSuffix(input: seq<Byte>, used: nat, n: nat)
    requires used + n <= |input|
    ensures input[used..][n..] == input[used + n..]
  {
  }

  /** One turn of the palette loop. */
  lemma PaletteRunsTurn(input: seq<Byte>, buffer: seq<Byte>, paletteSize: nat, left: nat)
    requires |buffer| == BUFFER && paletteSize <= 127 && left > 0
    ensures PaletteRuns(input, buffer, paletteSize, left)
         == (if input == [] || IndexedRun(input).NoRun? || input[0] % 128 > paletteSize
             || IndexedRun(input).length > left
             then Bad
             else Before(Repeat(EntryAt(buffer, input[0] % 128), IndexedRun(input).length), 1 + IndexedRun(input).used,
                         PaletteRuns(input[1 + IndexedRun(input).used..], buffer, paletteSize,
                                     left - IndexedRun(input).length)))
  {
    hide IndexedRun, EntryAt, Repeat, Before;
  }

  lemma NoMoreRuns(input: seq<Byte>, buffer: seq<Byte>, paletteSize: nat)
    requires |buffer| == BUFFER && paletteSize <= 127
    ensures PaletteRuns(input, buffer, paletteSize, 0) == Good([], 0, buffer)
  {
  }

  /** `rows` packed rows to go: `goal` draws what is shown and then what `left` says. */
  ghost predicate ToGo(goal: Result, input: seq<Byte>, shown: seq<Byte>, used: nat, left: seq<Byte>, palette: seq<Byte>,
                       tilew: nat, bits: Depth, rows: nat)
    requires |palette| == BUFFER
  {
    && used <= |input| && left == input[used..]
    && goal == Before(shown, used, PackedRows(left, palette, tilew, bits, rows))
  }

  lemma ToGoAll(goal: Result, input: seq<Byte>, palette: seq<Byte>, tilew: nat, bits: Depth, rows: nat)
    requires |palette| == BUFFER && goal == PackedRows(input, palette, tilew, bits, rows) && tilew > 0 && rows > 0
    ensures ToGo(goal, input, [], 0, input, palette, tilew, bits, rows)
    ensures input == [] ==> goal == Bad
  {
    BeforeNothing(goal);
    RowHasBytes(tilew, bits);
  }

  /** A row is drawn, or the tile fails for want of its bytes. */
  lemma ToGoNext(goal: Result, input: seq<Byte>, shown: seq<Byte>, used: nat, left: seq<Byte>, palette: seq<Byte>,
                 tilew: nat, bits: Depth, rows: nat)
    requires |palette| == BUFFER && rows > 0 && tilew > 0
    requires ToGo(goal, input, shown, used, left, palette, tilew, bits, rows)
    ensures var n := RowBytes(tilew, bits);
            && n > 0
            && (if |left| < n then goal == Bad
                else ToGo(goal, input, shown + RowPixels(left[..n], palette, tilew, bits, tilew), used + n, left[n..],
                          palette,
                          tilew, bits, rows - 1))
  {
    RowHasBytes(tilew, bits);
    hide RowBytes, RowPixels, Before;
    var n := RowBytes(tilew, bits);
    BeforeBad(shown, used);
    if |left| >= n {
      SuffixOfSuffix(input, used, n);
      BeforeBefore(shown, used, RowPixels(left[..n], palette, tilew, bits, tilew), n,
                   PackedRows(left[n..], palette, tilew, bits, rows - 1));
    }
  }

  lemma ToGoNone(goal: Result, input: seq<Byte>, shown: seq<Byte>, used: nat, left: seq<Byte>, palette: seq<Byte>,
                 tilew: nat, bits: Depth)
    requires |palette| == BUFFER && ToGo(goal, input, shown, used, left, palette, tilew, bits, 0)
    ensures used <= |input| && goal == Good(shown, used, palette) && left == input[used..]
  {
    DrawnAll(goal, shown, used, palette);
  }

  lemma RowHasBytes(tilew: nat, bits: Depth)
    requires tilew > 0
    ensures RowBytes(tilew, bits) > 0
  {
  }

  lemma RowInTile(y: nat, tilew: nat, tileh: nat, offset: nat)
    requires y < tileh && tileh * tilew <= SIDE * SIDE && offset == y * tilew
    ensures offset + tilew == (y + 1) * tilew <= SIDE * SIDE
  {
    MulStep(y, tilew);
    MulMono(y + 1, tileh, tilew);
  }

  lemma PixelsOf(t: Place)
    ensures t.width * t.height == t.height * t.width <= SIDE * SIDE
  {
    SmallTile(t);
  }

  lemma Suffix3(input: seq<Byte>, size: nat, r: Result)
    requires size * 3 <= |input| && (r.Good? ==> r.used <= |input| - size * 3)
    ensures r.Good? ==> input[size * 3..][r.used..] == input[size * 3 + r.used..]
  {
  }

  /** A tile was drawn as `r` says, with its first `header` bytes read before `input`; or it
      failed and nothing was drawn. */
  ghost predicate TileShown(r: TileResult, ok: bool, header: nat, input: seq<Byte>, stream: seq<Byte>,
                            buffer: seq<Byte>,
                            before: seq<Call>, calls: seq<Call>)
  {
    && ok == r.TileDone?
    && calls == (if ok then before + [r.call] else before)
    && (ok ==> r.buffer == buffer && header <= r.used <= header + |input| && stream == input[r.used - header..])
  }

  lemma WithHeader(r: TileResult, ok: bool, sub: Byte, rest: seq<Byte>, stream: seq<Byte>, buffer: seq<Byte>,
                   before: seq<Call>, calls: seq<Call>)
    requires TileShown(r, ok, 1, rest, stream, buffer, before, calls)
    ensures TileShown(r, ok, 0, [sub] + rest, stream, buffer, before, calls)
  {
  }

  lemma NoTile(t: Place, buffer: seq<Byte>, calls: seq<Call>)
    requires |buffer| == BUFFER
    ensures TileShown(DecodeTile(t, [], buffer), false, 0, [], [], buffer, calls, calls)
  {
  }

  lemma UnknownTile(rest: seq<Byte>, buffer: seq<Byte>, calls: seq<Call>)
    ensures TileShown(BadTile, false, 1, rest, rest, buffer, calls, calls)
  {
  }

  // ----- the loop over the tiles -------------------------------------------------------------------

  /** `goal` draws what was drawn since `first`, and then the tiles from `cur` on. */
  ghost predicate Left(r: Rect, goal: RectResult, first: seq<Call>, calls: seq<Call>, cur: nat, input: seq<Byte>,
                       buffer: seq<Byte>)
    requires |buffer| == BUFFER
  {
    cur <= TotalTiles(r, SIDE) && first + goal.calls == calls + DrawTiles(Places(r)[cur..], input, buffer).calls
    && SameEnd(goal, DrawTiles(Places(r)[cur..], input, buffer))
  }

  predicate SameEnd(a: RectResult, b: RectResult) {
    a.ok == b.ok && a.rest == b.rest && a.buffer == b.buffer
  }

  lemma LeftAll(r: Rect, goal: RectResult, first: seq<Call>, input: seq<Byte>, buffer: seq<Byte>)
    requires |buffer| == BUFFER && goal == DrawTiles(Places(r), input, buffer)
    ensures Left(r, goal, first, first, 0, input, buffer) && RowStarts(r, 0, 0)
  {
    assert Places(r)[0..] == Places(r);
  }

  lemma TilesTurn(places: seq<Place>, cur: nat, input: seq<Byte>, buffer: seq<Byte>)
    requires |buffer| == BUFFER && cur < |places|
    ensures DrawTiles(places[cur..], input, buffer)
         == (var r := DecodeTile(places[cur], input, buffer);
             if r.BadTile? then RectResult(false, [], input, buffer)
             else AfterTile(r.call, DrawTiles(places[cur + 1..], input[r.used..], r.buffer)))
  {
    hide AfterTile;
    assert places[cur..][1..] == places[cur + 1..];
  }

  /** A tile is drawn, or the rectangle fails there. */
  lemma LeftNext(r: Rect, goal: RectResult, first: seq<Call>, calls: seq<Call>, cur: nat, input: seq<Byte>,
                 buffer: seq<Byte>)
    requires |buffer| == BUFFER && cur < TotalTiles(r, SIDE) && Left(r, goal, first, calls, cur, input, buffer)
    ensures var t := DecodeTile(Places(r)[cur], input, buffer);
            if t.BadTile? then !goal.ok && first + goal.calls == calls
            else Left(r, goal, first, calls + [t.call], cur + 1, input[t.used..], t.buffer)
  {
    hide DecodeTile, DrawTiles, Places, TotalTiles;
    TilesTurn(Places(r), cur, input, buffer);
    var t := DecodeTile(Places(r)[cur], input, buffer);
    if t.BadTile? {
      assert calls + [] == calls;
    } else {
      var more := DrawTiles(Places(r)[cur + 1..], input[t.used..], t.buffer).calls;
      assert calls + ([t.call] + more) == calls + [t.call] + more;
    }
  }

  lemma AfterShown(r: Rect, goal: RectResult, first: seq<Call>, calls: seq<Call>, cur: nat, input: seq<Byte>,
                   buffer: seq<Byte>,
                   ok: bool, newCalls: seq<Call>, newInput: seq<Byte>, newBuffer: seq<Byte>)
    requires |buffer| == BUFFER && |newBuffer| == BUFFER && cur < TotalTiles(r, SIDE)
    requires Left(r, goal, first, calls, cur, input, buffer)
    requires TileShown(DecodeTile(Places(r)[cur], input, buffer), ok, 0, input, newInput, newBuffer, calls, newCalls)
    ensures if ok then Left(r, goal, first, newCalls, cur + 1, newInput, newBuffer)
            else !goal.ok && first + goal.calls == newCalls
  {
    LeftNext(r, goal, first, calls, cur, input, buffer);
    hide Left, DecodeTile, Places, TotalTiles;
  }

  lemma LeftNone(r: Rect, goal: RectResult, first: seq<Call>, calls: seq<Call>, cur: nat, input: seq<Byte>,
                 buffer: seq<Byte>)
    requires |buffer| == BUFFER && cur == TotalTiles(r, SIDE) && Left(r, goal, first, calls, cur, input, buffer)
    ensures goal.ok && first + goal.calls == calls && goal.rest == input && goal.buffer == buffer
  {
    assert Places(r)[cur..] == [];
    assert calls + [] == calls;
  }

  ghost predicate RowStarts(r: Rect, row: nat, cur: nat) {
    row <= Across(r.height, SIDE) && cur == row * Across(r.width, SIDE)
  }

  /** Tile `cur` is in column `col` of row `row`. */
  ghost predicate Cell(r: Rect, row: nat, col: nat, cur: nat) {
    && row < Across(r.height, SIDE) && col <= Across(r.width, SIDE)
    && cur == row * Across(r.width, SIDE) + col
  }

  lemma CellBegins(r: Rect, row: nat, cur: nat)
    requires RowStarts(r, row, cur) && row * 64 < r.height
    ensures Cell(r, row, 0, cur)
  {
    AcrossBounds(r.height, SIDE, row);
  }

  /** The loop variables give the place of tile `cur`. */
  lemma CellPlace(r: Rect, row: nat, col: nat, cur: nat)
    requires Cell(r, row, col, cur) && col * 64 < r.width
    ensures cur < TotalTiles(r, SIDE) && Cell(r, row, col + 1, cur + 1) && row * 64 < r.height
    ensures Places(r)[cur] == Rect(r.x + col * 64, r.y + row * 64, CutOff(r.width - col * 64, 64),
                                   CutOff(r.height - row * 64, 64))
  {
    var across := Across(r.width, SIDE);
    AcrossBounds(r.width, SIDE, col);
    AcrossBounds(r.height, SIDE, row);
    MulStep(row, across);
    MulMono(row + 1, Across(r.height, SIDE), across);
    DivideUnique(cur, row, across);
    hide Across;
  }

  lemma RowDone(r: Rect, row: nat, col: nat, cur: nat)
    requires Cell(r, row, col, cur) && col * 64 >= r.width
    ensures RowStarts(r, row + 1, cur)
  {
    AcrossBounds(r.width, SIDE, col);
    MulStep(row, Across(r.width, SIDE));
  }

  lemma RectDone(r: Rect, row: nat, cur: nat)
    requires RowStarts(r, row, cur) && row * 64 >= r.height
    ensures cur == TotalTiles(r, SIDE)
  {
    AcrossBounds(r.height, SIDE, row);
  }

  class ZRLEDecoder {
    const inflator: Inflator
    const pixelBuffer: array<Byte>
    const tileBuffer: array<Byte>

    constructor (input: seq<Byte>)
      ensures Valid() && fresh(inflator) && fresh(pixelBuffer) && fresh(tileBuffer) && inflator.stream == input
    {
      inflator := new Inflator(input);
      pixelBuffer := new Byte[64 * 64 * 4](_ => 0);
      tileBuffer := new Byte[64 * 64 * 4](_ => 0);
    }

    ghost predicate Valid()
    {
      pixelBuffer.Length == BUFFER && tileBuffer.Length == BUFFER && pixelBuffer != tileBuffer
    }

    /** The first `n` pixels of the tile. */
    ghost function Shown(n: nat): (r: seq<Byte>)
      requires Valid() && n <= SIDE * SIDE
      reads tileBuffer
    {
      tileBuffer[..n * 4]
    }

    /** Pixels of three bytes are read to the front of the pixel buffer. */
    method ReadPixels(pixels: nat) returns (ok: bool)
      requires Valid() && pixels * 4 <= BUFFER
      modifies inflator, pixelBuffer
      ensures ok == (pixels * 3 <= |old(inflator.stream)|)
      ensures ok ==> inflator.stream == old(inflator.stream)[pixels * 3..]
                     && pixelBuffer[..] == Loaded(old(pixelBuffer[..]), old(inflator.stream), pixels)
    {
      ghost var before := pixelBuffer[..];
      var buffer;
      ok, buffer := inflator.Inflate(pixels * 3);
      if !ok {
        return;
      }
      assert inflator.stream == old(inflator.stream)[pixels * 3..];
      hide Spread, Loaded;
      var i, j := 0, 0;
      LoadBegins(before, buffer);
      while i < pixels * 4
        invariant i % 4 == 0 && i <= pixels * 4 && j == i / 4 * 3
        invariant pixelBuffer[..] == Partly(before, buffer, i)
        invariant inflator.stream == old(inflator.stream)[pixels * 3..]
      {
        SetPixel(i, buffer[j], buffer[j + 1], buffer[j + 2]);
        LoadGoesOn(before, buffer, i, j);
        hide Partly;
        i := i + 4;
        j := j + 3;
      }
      LoadEnds(before, old(inflator.stream), pixels);
    }

    method SetPixel(i: nat, red: Byte, green: Byte, blue: Byte)
      requires Valid() && i + 4 <= BUFFER
      modifies pixelBuffer
      ensures pixelBuffer[..] == WithPixel(old(pixelBuffer[..]), i, [red, green, blue, 255])
    {
      pixelBuffer[i] := red;
      pixelBuffer[i + 1] := green;
      pixelBuffer[i + 2] := blue;
      pixelBuffer[i + 3] := 255;  // the alpha
    }

    method ReadRLELength() returns (ok: bool, length: nat)
      requires Valid()
      modifies inflator
      ensures var run := RunLength(old(inflator.stream));
              ok == run.RunOf? && (ok ==> length == run.length && inflator.stream == old(inflator.stream)[run.used..])
    {
      ghost var input := inflator.stream;
      length := 0;
      ghost var used := 0;
      while true
        invariant used <= |input| && inflator.stream == input[used..]
        invariant RunLength(input) == Longer(RunLength(inflator.stream), length, used)
        decreases |inflator.stream|
      {
        var byte;
        ok, byte := inflator.Inflate(1);
        if !ok {
          return;
        }
        length := length + byte[0];
        used := used + 1;
        if byte[0] != 255 {
          break;
        }
      }
      length := length + 1;
    }

    /** Palette entry `index` becomes the pixel at `offset` of the tile; what lies behind the
        buffer is not written. */
    method PutPixel(offset: nat, index: nat)
      requires Valid() && index < 256 && (offset < SIDE * SIDE ==> offset * 4 + 4 <= BUFFER)
      modifies tileBuffer
      ensures forall k :: 0 <= k < BUFFER && !(offset * 4 <= k < offset * 4 + 4) ==> tileBuffer[k] == old(tileBuffer[k])
      ensures offset < SIDE * SIDE ==>
                tileBuffer[..offset * 4 + 4] == old(tileBuffer[..offset * 4]) + EntryAt(pixelBuffer[..], index)
    {
      if offset < SIDE * SIDE {
        tileBuffer[offset * 4] := pixelBuffer[index * 4];
        tileBuffer[offset * 4 + 1] := pixelBuffer[index * 4 + 1];
        tileBuffer[offset * 4 + 2] := pixelBuffer[index * 4 + 2];
        tileBuffer[offset * 4 + 3] := pixelBuffer[index * 4 + 3];
      }
    }

    method AppendPixel(offset: nat, index: nat)
      requires Valid() && index < 256 && offset < SIDE * SIDE
      modifies tileBuffer
      ensures Shown(offset + 1) == old(Shown(offset)) + EntryAt(pixelBuffer[..], index)
    {
      PutPixel(offset, index);
    }

    /** A run of one palette entry from pixel `from` on; `limit` pixels make a tile. */
    method PutRun(index: nat, from: nat, length: nat, limit: nat)
      requires Valid() && index < 256 && from <= limit <= SIDE * SIDE
      modifies tileBuffer
      ensures var n := Least(length, limit - from);
              tileBuffer[..(from + n) * 4] == old(tileBuffer[..from * 4]) + Repeat(EntryAt(pixelBuffer[..], index), n)
    {
      ghost var entry := EntryAt(pixelBuffer[..], index);
      ghost var first := tileBuffer[..from * 4];
      hide EntryAt, Repeat;
      ghost var n := 0;
      RepeatNone(entry);
      for j := 0 to length
        invariant n == Least(j, limit - from)
        invariant tileBuffer[..(from + n) * 4] == first + Repeat(entry, n)
        invariant pixelBuffer[..] == old(pixelBuffer[..])
      {
        ghost var before := tileBuffer[..(from + n) * 4];
        PutPixel(from + j, index);
        if from + j < limit {
          RepeatNext(entry, n);
          n := n + 1;
        } else {
          assert tileBuffer[..(from + n) * 4] == before;
        }
      }
    }
  
    /** Plain run-length encoding; runs are written even where they overshoot the tile. */
    method DecodeRLETile(tileSize: nat) returns (ok: bool)
      requires Valid() && tileSize <= SIDE * SIDE
      modifies inflator, pixelBuffer, tileBuffer
      ensures Decoded(PlainRuns(old(inflator.stream), old(pixelBuffer[..]), tileSize), tileSize, ok,
                      old(inflator.stream))
    {
      hide RunLength, Loaded, EntryAt, Repeat, Before;
      ghost var input := inflator.stream;
      ghost var goal := PlainRuns(input, pixelBuffer[..], tileSize);
      ghost var used, done := 0, 0;
      var i: nat := 0;
      BeforeNothing(goal);
      assert tileBuffer[..0] == [];
      while i < tileSize
        invariant used <= |input| && inflator.stream == input[used..] && done == Least(i, tileSize)
        invariant goal == Before(tileBuffer[..done * 4], used,
                                 PlainRuns(inflator.stream, pixelBuffer[..], tileSize - done))
        decreases tileSize - done
      {
        ghost var rest, drawn, before := inflator.stream, tileBuffer[..done * 4], pixelBuffer[..];
        ok := ReadPixels(1);
        if !ok {
          BeforeBad(drawn, used);
          return;
        }
        var length;
        ok, length := ReadRLELength();
        if !ok {
          BeforeBad(drawn, used);
          return;
        }
        ghost var n := 3 + RunLength(rest[3..]).used;
        assert rest[3..][RunLength(rest[3..]).used..] == rest[n..] == input[used + n..];
        PutRun(0, i, length, tileSize);
        ghost var run := Repeat(EntryAt(pixelBuffer[..], 0), Least(length, tileSize - i));
        BeforeBefore(drawn, used, run, n,
                     PlainRuns(rest[n..], pixelBuffer[..], tileSize - i - Least(length, tileSize - i)));
        used := used + n;
        done := i + Least(length, tileSize - i);
        i := i + length;
      }
      ok := true;
      DrawnAll(goal, tileBuffer[..tileSize * 4], used, pixelBuffer[..]);
    }

    /** The run at the front: a palette index, and a length if the high bit is set. */
    method ReadIndexRun() returns (ok: bool, indexInPalette: nat, length: nat)
      requires Valid()
      modifies inflator
      ensures var input := old(inflator.stream);
              ok == (input != [] && IndexedRun(input).RunOf?)
              && (ok ==> indexInPalette == input[0] % 128 && length == IndexedRun(input).length
                         && inflator.stream == input[1 + IndexedRun(input).used..])
    {
      hide RunLength;
      ghost var input := inflator.stream;
      var byte;
      indexInPalette := 0;
      length := 1;
      ok, byte := inflator.Inflate(1);
      if !ok {
        return;
      }
      indexInPalette := byte[0];
      if indexInPalette >= 128 {
        indexInPalette := indexInPalette - 128;
        ok, length := ReadRLELength();
        assert ok ==> input[1..][RunLength(input[1..]).used..] == input[1 + RunLength(input[1..]).used..];
      }
    }

    /** Palette run-length encoding, behind the palette in the pixel buffer. */
    method DecodeIndexRuns(paletteSize: nat, tileSize: nat) returns (ok: bool)
      requires Valid() && paletteSize <= 127 && tileSize <= SIDE * SIDE
      modifies inflator, tileBuffer
      ensures Decoded(PaletteRuns(old(inflator.stream), pixelBuffer[..], paletteSize, tileSize), tileSize, ok,
                      old(inflator.stream))
    {
      hide IndexedRun, EntryAt, Repeat, Before, PaletteRuns;
      ghost var input, palette := inflator.stream, pixelBuffer[..];
      ghost var goal := PaletteRuns(input, palette, paletteSize, tileSize);
      ghost var used: nat := 0;
      var offset: nat := 0;
      BeforeNothing(goal);
      assert tileBuffer[..0] == [];
      while offset < tileSize
        invariant offset <= tileSize && used <= |input| && inflator.stream == input[used..]
                  && pixelBuffer[..] == palette
        invariant goal == Before(tileBuffer[..offset * 4], used,
                                 PaletteRuns(inflator.stream, palette, paletteSize, tileSize - offset))
        decreases tileSize - offset
      {
        ghost var rest, drawn := inflator.stream, tileBuffer[..offset * 4];
        BeforeBad(drawn, used);
        PaletteRunsTurn(rest, palette, paletteSize, tileSize - offset);
        var indexInPalette, length;
        ok, indexInPalette, length := ReadIndexRun();
        if !ok {
          return;
        }
        if indexInPalette > paletteSize {
          return false;
        }
        if offset + length > tileSize {
          return false;
        }
        ghost var n := 1 + IndexedRun(rest).used;
        SuffixOfSuffix(input, used, n);
        PutRun(indexInPalette, offset, length, tileSize);
        BeforeBefore(drawn, used, Repeat(EntryAt(palette, indexInPalette), length), n,
                     PaletteRuns(inflator.stream, palette, paletteSize, tileSize - offset - length));
        used := used + n;
        offset := offset + length;
      }
      ok := true;
      NoMoreRuns(inflator.stream, palette, paletteSize);
      DrawnAll(goal, tileBuffer[..tileSize * 4], used, palette);
    }

    /** The byte to take an index from; a new one once the shift has run out. */
    method TakeBits(bits: Depth, was: int, byte: Byte) returns (ok: bool, shift: int, encoded: Byte)
      requires Valid()
      modifies inflator
      ensures was >= 0 ==> ok && shift == was && encoded == byte && inflator.stream == old(inflator.stream)
      ensures was < 0 ==> ok == (old(inflator.stream) != []) && shift == 8 - Bits(bits)
      ensures was < 0 && ok ==> encoded == old(inflator.stream)[0] && inflator.stream == old(inflator.stream)[1..]
    {
      ok, shift, encoded := true, was, byte;
      if shift < 0 {
        shift := 8 - Bits(bits);
        var bytes;
        ok, bytes := inflator.Inflate(1);
        if ok {
          encoded := bytes[0];
        }
      }
    }

    /** Pixel `x` of a packed row; fails when its byte is missing. */
    method UnpackPixel(offset: nat, bits: Depth, was: int, byte: Byte, ghost row: seq<Byte>, ghost x: nat,
                       ghost palette: seq<Byte>,
                       ghost shown: seq<Byte>)
      returns (ok: bool, shift: int, encoded: Byte)
      requires Valid() && offset < SIDE * SIDE && Cursor(bits, row, x, byte, was, inflator.stream)
               && pixelBuffer[..] == palette
      requires Shown(offset) == shown
      modifies inflator, tileBuffer
      ensures ok == Arrived(bits, row, x) && pixelBuffer[..] == palette
      ensures ok ==> Cursor(bits, row, x + 1, encoded, shift, inflator.stream)
      ensures ok ==> Shown(offset + 1) == shown + EntryOf(palette, row, bits, x)
    {
      hide EntryAt, IndexIn, Shifted, Bits, PerByte, Cursor, InByte, Shown;
      CursorTurns(bits, row, x, byte, was, inflator.stream);
      ok, shift, encoded := TakeBits(bits, was, byte);
      if !ok {
        return;
      }
      ShiftIsIndex(bits, row, x, encoded, shift, inflator.stream);
      CursorNext(bits, row, x, encoded, shift, inflator.stream);
      var indexInPalette := Shifted(encoded, shift, bits);
      AppendPixel(offset, indexInPalette);
      shift := shift - Bits(bits);
    }

    /** One packed row whose first byte was read already. */
    method UnpackRow(from: nat, tilew: nat, bits: Depth, first: Byte, ghost row: seq<Byte>, ghost palette: seq<Byte>,
                     ghost before: seq<Byte>)
      returns (ok: bool, shift: int)
      requires Valid() && tilew >= 1 && from + tilew <= SIDE * SIDE && pixelBuffer[..] == palette
      requires Cursor(bits, row, 0, first, 8 - Bits(bits), inflator.stream) && Shown(from) == before
      modifies inflator, tileBuffer
      ensures ok == (RowBytes(tilew, bits) <= |row|) && pixelBuffer[..] == palette
      ensures ok ==> inflator.stream == row[RowBytes(tilew, bits)..] && shift < 8 - Bits(bits)
      ensures ok ==> RowShown(Shown(from + tilew), before, row, palette, tilew, bits, tilew)
    {
      ghost var shown := before;
      hide RowBytes, RowPixels, Bits, PerByte, Cursor, RowShown, Shown, Arrived, EntryOf, EntryAt, IndexIn;
      var encoded := first;
      shift := 8 - Bits(bits);
      NothingShown(before, row, palette, tilew, bits);
      var x: nat := 0;
      while x < tilew
        invariant x <= tilew && Cursor(bits, row, x, encoded, shift, inflator.stream) && pixelBuffer[..] == palette
        invariant shown == Shown(from + x) && RowShown(shown, before, row, palette, tilew, bits, x)
      {
        RowArrives(row, tilew, bits, x);
        ok, shift, encoded := UnpackPixel(from + x, bits, shift, encoded, row, x, palette, shown);
        if !ok {
          return;
        }
        NextShown(shown, before, row, palette, tilew, bits, x);
        shown := Shown(from + x + 1);
        x := x + 1;
      }
      CursorEnds(bits, row, tilew, encoded, shift, inflator.stream);
      ok := true;
    }

    /** A packed tile, behind the palette in the pixel buffer. */
    method UnpackRows(bits: Depth, tilew: nat, tileh: nat) returns (ok: bool)
      requires Valid() && tilew >= 1 && tileh >= 1 && tileh * tilew <= SIDE * SIDE
      modifies inflator, tileBuffer
      ensures Decoded(PackedRows(old(inflator.stream), pixelBuffer[..], tilew, bits, tileh), tileh * tilew, ok,
                      old(inflator.stream))
    {
      hide RowBytes, RowPixels, PackedRows, Bits, ToGo, RowShown, Cursor;
      assert Shown(0) == [];
      ghost var input, palette := inflator.stream, pixelBuffer[..];
      ghost var goal := PackedRows(input, palette, tilew, bits, tileh);
      ghost var used: nat, left := 0, input;
      ToGoAll(goal, input, palette, tilew, bits, tileh);
      var encoded;
      ok, encoded := inflator.Inflate(1);
      if !ok {
        return;
      }
      var y, byte: Byte, offset: nat := 0, encoded[0], 0;
      while y < tileh
        invariant y <= tileh && pixelBuffer[..] == palette && offset == y * tilew <= SIDE * SIDE
        invariant left == if y < tileh then [byte] + inflator.stream else inflator.stream
        invariant ToGo(goal, input, Shown(offset), used, left, palette, tilew, bits, tileh - y)
      {
        RowInTile(y, tilew, tileh, offset);
        ghost var shown := Shown(offset);
        ToGoNext(goal, input, shown, used, left, palette, tilew, bits, tileh - y);
        CursorBegins(bits, byte, inflator.stream);
        var shift;
        ok, shift := UnpackRow(offset, tilew, bits, byte, left, palette, shown);
        if !ok {
          return;
        }
        AllShown(Shown(offset + tilew), shown, left, palette, tilew, bits);
        used, left := used + RowBytes(tilew, bits), left[RowBytes(tilew, bits)..];
        if shift < 8 - Bits(bits) && y < tileh - 1 {
          ToGoNext(goal, input, Shown(offset + tilew), used, left, palette, tilew, bits, tileh - y - 1);
          ok, encoded := inflator.Inflate(1);
          if !ok {
            return;
          }
          byte := encoded[0];
        }
        offset := offset + tilew;
        y := y + 1;
      }
      ok := true;
      ToGoNone(goal, input, Shown(offset), used, left, palette, tilew, bits);
    }

    /** A raw tile. */
    method DrawRaw(t: Place, display: Recorder) returns (ok: bool)
      requires Valid()
      modifies inflator, pixelBuffer, display
      ensures TileShown(RawTile(t, old(inflator.stream), old(pixelBuffer[..])), ok, 1, old(inflator.stream),
                        inflator.stream,
                        pixelBuffer[..], old(display.calls), display.calls)
    {
      hide Loaded;
      PixelsOf(t);
      var tileSize := t.width * t.height;
      ok := ReadPixels(tileSize);
      if ok {
        display.BlitImage(t.x, t.y, t.width, t.height, pixelBuffer[..tileSize * 4]);
        assert pixelBuffer[..tileSize * 4] == pixelBuffer[..][..tileSize * 4];
      }
    }

    /** A tile of one colour. */
    method DrawSolid(t: Place, display: Recorder) returns (ok: bool)
      requires Valid()
      modifies inflator, pixelBuffer, display
      ensures TileShown(SolidTile(t, old(inflator.stream), old(pixelBuffer[..])), ok, 1, old(inflator.stream),
                        inflator.stream,
                        pixelBuffer[..], old(display.calls), display.calls)
    {
      hide Loaded;
      ok := ReadPixels(1);
      if ok {
        display.FillRect(t.x, t.y, t.width, t.height, [pixelBuffer[0], pixelBuffer[1], pixelBuffer[2]]);
        assert [pixelBuffer[0], pixelBuffer[1], pixelBuffer[2]] == pixelBuffer[..][..3];
      }
    }

    /** The pixels of a packed tile: a palette of at most 16 colours and rows of indexes. */
    method DecodePaletteTile(paletteSize: nat, tilew: nat, tileh: nat) returns (ok: bool)
      requires Valid() && 2 <= paletteSize <= 16 && tilew >= 1 && tileh >= 1 && tileh * tilew <= SIDE * SIDE
      modifies inflator, pixelBuffer, tileBuffer
      ensures ok ==> paletteSize * 3 <= |old(inflator.stream)|
      ensures if |old(inflator.stream)| < paletteSize * 3 then !ok
              else Decoded(PackedRows(old(inflator.stream)[paletteSize * 3..],
                                      Loaded(old(pixelBuffer[..]), old(inflator.stream), paletteSize), tilew,
                                      BitsPerPixel(paletteSize), tileh),
                           tileh * tilew, ok, old(inflator.stream)[paletteSize * 3..])
    {
      hide PackedRows, Loaded, BitsPerPixel;
      ok := ReadPixels(paletteSize);
      if ok {
        ok := UnpackRows(BitsPerPixel(paletteSize), tilew, tileh);
      }
    }

    /** The pixels of a run-length encoded tile with a palette. */
    method DecodeRLEPaletteTile(paletteSize: nat, tileSize: nat) returns (ok: bool)
      requires Valid() && 2 <= paletteSize <= 127 && tileSize <= SIDE * SIDE
      modifies inflator, pixelBuffer, tileBuffer
      ensures if |old(inflator.stream)| < paletteSize * 3 then !ok
              else Decoded(PaletteRuns(old(inflator.stream)[paletteSize * 3..],
                                       Loaded(old(pixelBuffer[..]), old(inflator.stream), paletteSize), paletteSize,
                                       tileSize),
                           tileSize, ok, old(inflator.stream)[paletteSize * 3..])
    {
      hide PaletteRuns, Loaded;
      ok := ReadPixels(paletteSize);
      if ok {
        ok := DecodeIndexRuns(paletteSize, tileSize);
      }
    }

    method DrawPacked(t: Place, size: nat, display: Recorder) returns (ok: bool)
      requires Valid() && 2 <= size <= 16
      modifies inflator, pixelBuffer, tileBuffer, display
      ensures TileShown(PackedTile(t, size, old(inflator.stream), old(pixelBuffer[..])), ok, 1, old(inflator.stream),
                        inflator.stream, pixelBuffer[..], old(display.calls), display.calls)
    {
      hide PackedRows, Loaded, BitsPerPixel;
      PixelsOf(t);
      ghost var input, before := inflator.stream, pixelBuffer[..];
      ok := DecodePaletteTile(size, t.width, t.height);
      if ok {
        Suffix3(input, size, PackedRows(input[size * 3..], Loaded(before, input, size), t.width, BitsPerPixel(size),
                                        t.height));
        display.BlitImage(t.x, t.y, t.width, t.height, tileBuffer[..t.height * t.width * 4]);
      }
    }

    method DrawPlain(t: Place, display: Recorder) returns (ok: bool)
      requires Valid()
      modifies inflator, pixelBuffer, tileBuffer, display
      ensures TileShown(Image(t, 1, PlainRuns(old(inflator.stream), old(pixelBuffer[..]), t.width * t.height)), ok, 1,
                        old(inflator.stream), inflator.stream, pixelBuffer[..], old(display.calls), display.calls)
    {
      hide PlainRuns;
      PixelsOf(t);
      ok := DecodeRLETile(t.width * t.height);
      if ok {
        display.BlitImage(t.x, t.y, t.width, t.height, tileBuffer[..t.width * t.height * 4]);
      }
    }

    method DrawIndexed(t: Place, size: nat, display: Recorder) returns (ok: bool)
      requires Valid() && 2 <= size <= 127
      modifies inflator, pixelBuffer, tileBuffer, display
      ensures TileShown(PaletteTile(t, size, old(inflator.stream), old(pixelBuffer[..])), ok, 1, old(inflator.stream),
                        inflator.stream, pixelBuffer[..], old(display.calls), display.calls)
    {
      hide PaletteRuns, Loaded;
      PixelsOf(t);
      ghost var input, before := inflator.stream, pixelBuffer[..];
      ok := DecodeRLEPaletteTile(size, t.width * t.height);
      if ok {
        Suffix3(input, size, PaletteRuns(input[size * 3..], Loaded(before, input, size), size, t.width * t.height));
        display.BlitImage(t.x, t.y, t.width, t.height, tileBuffer[..t.width * t.height * 4]);
      }
    }

    /** One tile is read and drawn. */
    method DrawTile(t: Place, display: Recorder) returns (ok: bool)
      requires Valid()
      modifies inflator, pixelBuffer, tileBuffer, display
      ensures TileShown(DecodeTile(t, old(inflator.stream), old(pixelBuffer[..])), ok, 0, old(inflator.stream),
                        inflator.stream,
                        pixelBuffer[..], old(display.calls), display.calls)
    {
      hide DecodeTile, RawTile, SolidTile, PackedTile, PaletteTile, Image, PlainRuns, TileShown;
      ghost var input, before, calls := inflator.stream, pixelBuffer[..], display.calls;
      var byte;
      ok, byte := inflator.Inflate(1);
      if !ok {
        NoTile(t, before, calls);
        return;
      }
      var subencoding := byte[0];
      ghost var rest := inflator.stream;
      SubencodingPicks(t, subencoding, rest, before);
      assert input == [subencoding] + rest;
      if subencoding == 0 {
        ok := DrawRaw(t, display);
      } else if subencoding == 1 {
        ok := DrawSolid(t, display);
      } else if subencoding <= 16 {
        ok := DrawPacked(t, subencoding, display);
      } else if subencoding == 128 {
        ok := DrawPlain(t, display);
      } else if subencoding >= 130 {
        ok := DrawIndexed(t, subencoding - 128, display);
      } else {
        ok := false;
        UnknownTile(rest, before, calls);
      }
      WithHeader(DecodeTile(t, input, before), ok, subencoding, rest, inflator.stream, pixelBuffer[..], calls,
                 display.calls);
    }

    /** The tiles along the rows, once the zlib data has arrived. */
    method DecodeRect(r: Rect, display: Recorder) returns (ok: bool)
      requires Valid()
      modifies inflator, pixelBuffer, tileBuffer, display
      ensures var p := DrawTiles(Places(r), old(inflator.stream), old(pixelBuffer[..]));
              && ok == p.ok && display.calls == old(display.calls) + p.calls
              && (ok ==> inflator.stream == p.rest && pixelBuffer[..] == p.buffer)
    {
      hide Left, RowStarts, Cell, Places, DrawTiles, DecodeTile, TotalTiles, Across, TileShown, TileAt;
      ghost var places, first := Places(r), display.calls;
      ghost var goal := DrawTiles(places, inflator.stream, pixelBuffer[..]);
      ghost var row, col, cur: nat := 0, 0, 0;
      LeftAll(r, goal, first, inflator.stream, pixelBuffer[..]);
      var ty := r.y;
      while ty < r.y + r.height
        invariant ty == r.y + row * 64 && RowStarts(r, row, cur)
        invariant Left(r, goal, first, display.calls, cur, inflator.stream, pixelBuffer[..])
        decreases r.y + r.height - ty
      {
        var th := if r.y + r.height - ty < 64 then r.y + r.height - ty else 64;
        var tx := r.x;
        col := 0;
        CellBegins(r, row, cur);
        while tx < r.x + r.width
          invariant tx == r.x + col * 64 && Cell(r, row, col, cur)
          invariant Left(r, goal, first, display.calls, cur, inflator.stream, pixelBuffer[..])
          decreases r.x + r.width - tx
        {
          var tw := if r.x + r.width - tx < 64 then r.x + r.width - tx else 64;
          CellPlace(r, row, col, cur);
          LeftNext(r, goal, first, display.calls, cur, inflator.stream, pixelBuffer[..]);
          ghost var calls, input, buffer := display.calls, inflator.stream, pixelBuffer[..];
          ok := DrawTile(Rect(tx, ty, tw, th), display);
          AfterShown(r, goal, first, calls, cur, input, buffer, ok, display.calls, inflator.stream, pixelBuffer[..]);
          if !ok {
            return;
          }
          tx := tx + 64;
          col, cur := col + 1, cur + 1;
        }
        RowDone(r, row, col, cur);
        ty := ty + 64;
        row := row + 1;
      }
      RectDone(r, row, cur);
      LeftNone(r, goal, first, display.calls, cur, inflator.stream, pixelBuffer[..]);
      ok := true;
    }

    /** What decoding the pixels of a tile leaves: `r` is what the stream says. */
    ghost predicate Decoded(r: Result, tileSize: nat, ok: bool, input: seq<Byte>)
      requires Valid() && tileSize <= SIDE * SIDE && (r.Good? ==> r.used <= |input|)
      reads inflator, pixelBuffer, tileBuffer
    {
      && ok == r.Good?
      && (ok ==>
            r.data == tileBuffer[..tileSize * 4] && r.buffer == pixelBuffer[..] && inflator.stream == input[r.used..])
    }
  }

  lemma BeforeNothing(r: Result)
    ensures Before([], 0, r) == r
  {
    if r.Good? {
      assert [] + r.data == r.data;
    }
  }

  lemma BeforeBad(pixels: seq<Byte>, used: nat)
    ensures Before(pixels, used, Bad) == Bad
  {
  }

  lemma DrawnAll(goal: Result, drawn: seq<Byte>, used: nat, buffer: seq<Byte>)
    requires |buffer| == BUFFER && goal == Before(drawn, used, Good([], 0, buffer))
    ensures goal == Good(drawn, used, buffer)
  {
    assert drawn + [] == drawn;
  }

  lemma RepeatNone(pixel: seq<Byte>)
    requires |pixel| == 4
    ensures Repeat(pixel, 0) == []
  {
  }

  /** The decoder, fed the encoding of a rectangle, draws the tiles that were encoded and
      stops right behind them. */
  method DecodeEncoded(decoder: ZRLEDecoder, r: Rect, display: Recorder, ghost tiles: seq<Tile>, ghost more: seq<Byte>)
    returns (ok: bool)
    requires decoder.Valid() && FitTiles(Places(r), tiles)
    requires decoder.inflator.stream == EncodeTiles(Places(r), tiles) + more
    modifies decoder.inflator, decoder.pixelBuffer, decoder.tileBuffer, display
    ensures ok && display.calls == old(display.calls) + TileCalls(Places(r), tiles) && decoder.inflator.stream == more
  {
    hide FitTiles, EncodeTiles, TileCalls, DrawTiles, Places;
    RectBack(Places(r), tiles, more, decoder.pixelBuffer[..]);
    ok := decoder.DecodeRect(r, display);
  }
}
