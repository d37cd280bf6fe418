/** The tiles of ZRLE encoding (section 7.7.6 of RFC 6143;
    pond-sec/app/static/novnc/core/decoders/zrle.js), read from the inflated stream. */
module ZRLE {
  import opened Bytes
  import opened Resume
  import opened Arithmetic
  import opened Powers

  const SIDE := 64
  const BUFFER := 64 * 64 * 4

  // ----- pixels -------------------------------------------------------------------------------

  /** Three bytes a pixel become four, with full alpha. */
  function Spread(bytes: seq<Byte>): (r: seq<Byte>)
    ensures |r| == |bytes| / 3 * 4
  {
    seq(|bytes| / 3 * 4, k requires 0 <= k < |bytes| / 3 * 4 => if k % 4 == 3 then 255 else bytes[k / 4 * 3 + k % 4])
  }

  /** The pixel buffer after `pixels` pixels were read into it; what lies behind stays. */
  function Loaded(buffer: seq<Byte>, input: seq<Byte>, pixels: nat): (r: seq<Byte>)
    requires |buffer| == BUFFER && pixels * 4 <= BUFFER && pixels * 3 <= |input|
    ensures |r| == BUFFER
  {
    Spread(input[..pixels * 3]) + buffer[pixels * 4..]
  }

  /** Palette entry `index`, wherever it lies in the buffer. */
  function EntryAt(buffer: seq<Byte>, index: nat): (r: seq<Byte>)
    requires |buffer| == BUFFER && index < 256
    ensures |r| == 4
  {
    buffer[index * 4..index * 4 + 4]
  }

  function Repeat(pixel: seq<Byte>, n: nat): (r: seq<Byte>)
    requires |pixel| == 4
    ensures |r| == n * 4
  {
    if n == 0 then [] else Repeat(pixel, n - 1) + pixel
  }

  // ----- run lengths -----------------------------------------------------------------------------

  datatype Run = NoRun | RunOf(length: nat, used: nat)

  function RunLength(input: seq<Byte>): (r: Run)
    ensures r.RunOf? ==> 1 <= r.used <= |input| && r.length >= 1
  {
    if input == [] then NoRun
    else if input[0] < 255 then RunOf(input[0] as int + 1, 1)
    else
      match RunLength(input[1..])
      case NoRun => NoRun
      case RunOf(length, used) => RunOf(length + 255, used + 1)
  }

  function EncodeLength(n: nat): (r: seq<Byte>)
    requires n >= 1
    ensures |r| >= 1
  {
    if n <= 255 then [n - 1] else [255] + EncodeLength(n - 255)
  }

  /** The stream begins with an encoding. */
  predicate Starts(input: seq<Byte>, encoding: seq<Byte>) {
    encoding <= input
  }

  lemma {:induction false} LengthBack(n: nat, input: seq<Byte>)
    requires n >= 1 && Starts(input, EncodeLength(n))
    ensures RunLength(input) == RunOf(n, |EncodeLength(n)|)
  {
    if n <= 255 {
      assert input[0] == EncodeLength(n)[0];
    } else {
      assert EncodeLength(n)[1..] == EncodeLength(n - 255);
      assert input[0] == EncodeLength(n)[0];
      LengthBack(n - 255, input[1..]);
    }
  }

  // ----- one tile, as a function of the stream ----------------------------------------------------

  /** The bytes drawn, how many bytes of the stream were used, and the pixel buffer left. */
  datatype Result = Bad | Good(data: seq<Byte>, used: nat, buffer: seq<Byte>)

  /** `pixels` drawn with `used` bytes, then what `r` says. */
  function Before(pixels: seq<Byte>, used: nat, r: Result): Result {
    match r
    case Bad => Bad
    case Good(data, more, buffer) => Good(pixels + data, used + more, buffer)
  }

  function Least(a: nat, b: nat): nat {
    if a <= b then a else b
  }

  /** Plain run-length encoding with `left` pixels to go; a run may overshoot the tile. */
  function PlainRuns(input: seq<Byte>, buffer: seq<Byte>, left: nat): (r: Result)
    requires |buffer| == BUFFER
    ensures r.Good? ==> |r.data| == left * 4 && r.used <= |input| && |r.buffer| == BUFFER
    decreases left
  {
    if left == 0 then Good([], 0, buffer)
    else if |input| < 3 then Bad
    else
      match RunLength(input[3..])
      case NoRun => Bad
      case RunOf(length, used) =>
        var after := Loaded(buffer, input, 1);
        Before(Repeat(EntryAt(after, 0), Least(length, left)), 3 + used,
               PlainRuns(input[3 + used..], after, left - Least(length, left)))
  }

  /** The run at the front of palette run-length encoding: its length, and the bytes of the
      length if there are any. */
  function IndexedRun(input: seq<Byte>): (r: Run)
    requires input != []
    ensures r.RunOf? ==> r.used < |input| && r.length >= 1
  {
    if input[0] < 128 then RunOf(1, 0) else RunLength(input[1..])
  }

  /** Palette run-length encoding; the palette is in the buffer. */
  function PaletteRuns(input: seq<Byte>, buffer: seq<Byte>, paletteSize: nat, left: nat): (r: Result)
    requires |buffer| == BUFFER && paletteSize <= 127
    ensures r.Good? ==> |r.data| == left * 4 && r.used <= |input| && r.buffer == buffer
    decreases left
  {
    if left == 0 then Good([], 0, buffer)
    else if input == [] then Bad
    else
      var run := IndexedRun(input);
      var index := input[0] % 128;
      if run.NoRun? || index > paletteSize || run.length > left then Bad
      else
        Before(Repeat(EntryAt(buffer, index), run.length), 1 + run.used,
               PaletteRuns(input[1 + run.used..], buffer, paletteSize, left - run.length))
  }

  // ----- packed palettes ------------------------------------------------------------------------------

  datatype Depth = OneBit | TwoBits | FourBits

  function BitsPerPixel(paletteSize: nat): Depth {
    if paletteSize <= 2 then OneBit else if paletteSize <= 4 then TwoBits else FourBits
  }

  function Bits(d: Depth): nat {
    match d case OneBit => 1 case TwoBits => 2 case FourBits => 4
  }

  function PerByte(d: Depth): (n: nat)
    ensures n * Bits(d) == 8 && n >= 2
  {
    match d case OneBit => 8 case TwoBits => 4 case FourBits => 2
  }

  function Base(d: Depth): (b: nat)
    ensures b >= 2
  {
    match d case OneBit => 2 case TwoBits => 4 case FourBits => 16
  }

  /** Digit `k` of a byte, from the low end. */
  function Digit(byte: nat, b: nat, k: nat): nat
    requires b >= 2
  {
    byte / Power(b, k) % b
  }

  /** A row of `tilew` pixels takes so many bytes. */
  function RowBytes(tilew: nat, bits: Depth): nat {
    (tilew * Bits(bits) + 7) / 8
  }

  /** The palette index of column `x` in a row: high bits first. */
  function IndexIn(row: seq<Byte>, bits: Depth, x: nat): nat
    requires x / PerByte(bits) < |row|
  {
    Digit(row[x / PerByte(bits)], Base(bits), PerByte(bits) - 1 - x % PerByte(bits))
  }

  lemma RowFits(tilew: nat, bits: Depth, x: nat)
    requires x < tilew
    ensures x / PerByte(bits) < RowBytes(tilew, bits)
  {
  }

  /** The pixels of one row up to column `x`. */
  function RowPixels(row: seq<Byte>, buffer: seq<Byte>, tilew: nat, bits: Depth, x: nat): (r: seq<Byte>)
    requires |buffer| == BUFFER && |row| == RowBytes(tilew, bits) && x <= tilew
    ensures |r| == x * 4
  {
    if x == 0 then []
    else
      RowFits(tilew, bits, x - 1);
      RowPixels(row, buffer, tilew, bits, x - 1) + EntryAt(buffer, IndexIn(row, bits, x - 1))
  }

  /** The pixels of `rows` packed rows. */
  function PackedRows(input: seq<Byte>, buffer: seq<Byte>, tilew: nat, bits: Depth, rows: nat): (r: Result)
    requires |buffer| == BUFFER
    ensures r.Good? ==> r.used <= |input| && r.buffer == buffer
  {
    if rows == 0 then Good([], 0, buffer)
    else if |input| < RowBytes(tilew, bits) then Bad
    else
      Before(RowPixels(input[..RowBytes(tilew, bits)], buffer, tilew, bits, tilew), RowBytes(tilew, bits),
             PackedRows(input[RowBytes(tilew, bits)..], buffer, tilew, bits, rows - 1))
  }

  /** A packed tile reads exactly `rows` times the bytes of a row, and fails exactly when
      they are not there. */
  lemma {:induction false} PackedSizes(input: seq<Byte>, buffer: seq<Byte>, tilew: nat, bits: Depth, rows: nat)
    requires |buffer| == BUFFER
    ensures var r := PackedRows(input, buffer, tilew, bits, rows);
            && (r.Good? <==> rows * RowBytes(tilew, bits) <= |input|)
            && (r.Good? ==> |r.data| == rows * tilew * 4 && r.used == rows * RowBytes(tilew, bits))
    decreases rows
  {
    hide RowBytes, RowPixels;
    if rows > 0 {
      var n := RowBytes(tilew, bits);
      MulStep(rows - 1, n);
      MulStep(rows - 1, tilew);
      MulMono(0, rows - 1, n);
      if n <= |input| {
        PackedSizes(input[n..], buffer, tilew, bits, rows - 1);
      }
    }
  }

  // ----- decoding undoes encoding: runs ---------------------------------------------------------------

  datatype AnyRun = PixelRun(colour: seq<Byte>, length: nat)

  /** A run of at least one pixel of three bytes. */
  type PixelRun = r: AnyRun | |r.colour| == 3 && r.length >= 1 witness PixelRun([0, 0, 0], 1)

  function TotalLength(runs: seq<PixelRun>): nat {
    if runs == [] then 0 else runs[0].length + TotalLength(runs[1..])
  }

  function EncodeRuns(runs: seq<PixelRun>): seq<Byte>
  {
    if runs == [] then [] else EncodeRun(runs[0]) + EncodeRuns(runs[1..])
  }

  function Expanded(runs: seq<PixelRun>): seq<Byte>
  {
    if runs == [] then [] else Repeat(runs[0].colour + [255], runs[0].length) + Expanded(runs[1..])
  }

  lemma OnePixel(buffer: seq<Byte>, input: seq<Byte>)
    requires |buffer| == BUFFER && |input| >= 3
    ensures EntryAt(Loaded(buffer, input, 1), 0) == input[..3] + [255]
  {
    assert |input[..1 * 3]| / 3 == 1;
  }

  /** The result draws `data` with `used` bytes. */
  predicate Draws(r: Result, data: seq<Byte>, used: nat) {
    r.Good? && r.data == data && r.used == used
  }

  lemma DrawsBefore(pixels: seq<Byte>, n: nat, r: Result, data: seq<Byte>, used: nat)
    requires Draws(r, data, used)
    ensures Draws(Before(pixels, n, r), pixels + data, n + used)
  {
  }

  /** An encoding with more of the stream behind it. */
  function Ahead(encoding: seq<Byte>, more: seq<Byte>): seq<Byte> {
    encoding + more
  }

  /** What comes after the first part of an encoding. */
  lemma Behind(first: seq<Byte>, rest: seq<Byte>, more: seq<Byte>)
    ensures first + rest + more == first + (rest + more)
    ensures (first + (rest + more))[|first|..] == rest + more
  {
  }

  function EncodeRun(run: PixelRun): (r: seq<Byte>)
    ensures |r| > 3
  {
    run.colour + EncodeLength(run.length)
  }

  /** A run of the encoding, in front of anything else, is drawn and used up. */
  lemma PlainTurn(run: PixelRun, tail: seq<Byte>, buffer: seq<Byte>, left: nat)
    requires |buffer| == BUFFER && left >= run.length
    ensures PlainRuns(Ahead(EncodeRun(run), tail), buffer, left)
         == Before(Repeat(run.colour + [255], run.length), |EncodeRun(run)|,
                   PlainRuns(tail, Loaded(buffer, Ahead(EncodeRun(run), tail), 1), left - run.length))
  {
    var input, l := EncodeRun(run) + tail, EncodeLength(run.length);
    assert input[..3] == run.colour && input[3..] == l + tail && input[3 + |l|..] == tail;
    LengthBack(run.length, input[3..]);
    OnePixel(buffer, input);
    hide EncodeLength, RunLength, Loaded, EntryAt, Repeat, Before, EncodeRun;
  }

  ghost predicate RunsDrawn(runs: seq<PixelRun>, more: seq<Byte>, buffer: seq<Byte>)
    requires |buffer| == BUFFER
  {
    Draws(PlainRuns(Ahead(EncodeRuns(runs), more), buffer, TotalLength(runs)), Expanded(runs), |EncodeRuns(runs)|)
  }

  lemma PlainStep(runs: seq<PixelRun>, more: seq<Byte>, buffer: seq<Byte>)
    requires |buffer| == BUFFER && runs != []
    requires RunsDrawn(runs[1..], more, Loaded(buffer, AfterFirst(runs, more), 1))
    ensures RunsDrawn(runs, more, buffer)
  {
    hide Draws, PlainRuns, Ahead, EncodeRun, EncodeRuns, Expanded, TotalLength, Loaded, Repeat;
    var run, rest := runs[0], runs[1..];
    var tail := Ahead(EncodeRuns(rest), more);
    var after := Loaded(buffer, AfterFirst(runs, more), 1);
    RunsFirst(runs, more);
    PlainTurn(run, tail, buffer, TotalLength(runs));
    DrawsBefore(Repeat(run.colour + [255], run.length), |EncodeRun(run)|,
                PlainRuns(tail, after, TotalLength(rest)), Expanded(rest), |EncodeRuns(rest)|);
  }

  function AfterFirst(runs: seq<PixelRun>, more: seq<Byte>): (r: seq<Byte>)
    requires runs != []
    ensures |r| > 3
  {
    Ahead(EncodeRun(runs[0]), Ahead(EncodeRuns(runs[1..]), more))
  }

  /** Plain runs: when the stream begins with an encoding, every pixel comes back and
      exactly the encoding is used. */
  lemma {:induction false} PlainRunsBack(runs: seq<PixelRun>, more: seq<Byte>, buffer: seq<Byte>)
    requires |buffer| == BUFFER
    ensures RunsDrawn(runs, more, buffer)
    decreases |runs|
  {
    if runs != [] {
      hide RunsDrawn, AfterFirst, Loaded;
      PlainRunsBack(runs[1..], more, Loaded(buffer, AfterFirst(runs, more), 1));
      PlainStep(runs, more, buffer);
    }
  }

  lemma RunsFirst(runs: seq<PixelRun>, more: seq<Byte>)
    requires runs != []
    ensures Ahead(EncodeRuns(runs), more) == Ahead(EncodeRun(runs[0]), Ahead(EncodeRuns(runs[1..]), more))
    ensures |EncodeRuns(runs)| == |EncodeRun(runs[0])| + |EncodeRuns(runs[1..])|
    ensures Expanded(runs) == Repeat(runs[0].colour + [255], runs[0].length) + Expanded(runs[1..])
    ensures TotalLength(runs) == runs[0].length + TotalLength(runs[1..])
  {
    hide EncodeRun, Repeat;
    Behind(EncodeRun(runs[0]), EncodeRuns(runs[1..]), more);
  }

  datatype AnyIndexRun = IndexRun(index: nat, length: nat)

  /** A run of at least one pixel of a palette entry. */
  type IndexRun = r: AnyIndexRun | r.index <= 126 && r.length >= 1 witness IndexRun(0, 1)

  function TotalIndexed(runs: seq<IndexRun>): nat {
    if runs == [] then 0 else runs[0].length + TotalIndexed(runs[1..])
  }

  /** A single pixel is one byte, a longer run two or more. */
  function EncodeIndexRun(r: IndexRun): (bytes: seq<Byte>)
    ensures |bytes| >= 1
  {
    if r.length == 1 then [r.index] else [r.index + 128] + EncodeLength(r.length)
  }

  function EncodeIndexRuns(runs: seq<IndexRun>): seq<Byte>
  {
    if runs == [] then [] else EncodeIndexRun(runs[0]) + EncodeIndexRuns(runs[1..])
  }

  function ExpandedIndexes(runs: seq<IndexRun>, buffer: seq<Byte>): seq<Byte>
    requires |buffer| == BUFFER
  {
    if runs == [] then []
    else Repeat(EntryAt(buffer, runs[0].index), runs[0].length) + ExpandedIndexes(runs[1..], buffer)
  }

  lemma FirstIndexRun(run: IndexRun, tail: seq<Byte>)
    ensures (EncodeIndexRun(run) + tail)[0] % 128 == run.index
    ensures IndexedRun(EncodeIndexRun(run) + tail) == RunOf(run.length, |EncodeIndexRun(run)| - 1)
  {
    var e := EncodeIndexRun(run);
    assert (e + tail)[0] == e[0];
    if run.length > 1 {
      assert (e + tail)[1..] == EncodeLength(run.length) + tail;
      LengthBack(run.length, (e + tail)[1..]);
    }
    hide EncodeLength, RunLength;
  }

  lemma PaletteTurn(run: IndexRun, tail: seq<Byte>, buffer: seq<Byte>, paletteSize: nat, left: nat)
    requires |buffer| == BUFFER && left >= run.length && run.index < paletteSize <= 127
    ensures PaletteRuns(Ahead(EncodeIndexRun(run), tail), buffer, paletteSize, left)
         == Before(Repeat(EntryAt(buffer, run.index), run.length), |EncodeIndexRun(run)|,
                   PaletteRuns(tail, buffer, paletteSize, left - run.length))
  {
    FirstIndexRun(run, tail);
    hide EncodeIndexRun, IndexedRun, EntryAt, Repeat, Before;
    var input := EncodeIndexRun(run) + tail;
    assert input[|EncodeIndexRun(run)|..] == tail;
  }

  lemma IndexRunsFirst(runs: seq<IndexRun>, more: seq<Byte>, buffer: seq<Byte>)
    requires runs != [] && |buffer| == BUFFER
    ensures Ahead(EncodeIndexRuns(runs), more)
         == Ahead(EncodeIndexRun(runs[0]), Ahead(EncodeIndexRuns(runs[1..]), more))
    ensures |EncodeIndexRuns(runs)| == |EncodeIndexRun(runs[0])| + |EncodeIndexRuns(runs[1..])|
    ensures ExpandedIndexes(runs, buffer)
         == Repeat(EntryAt(buffer, runs[0].index), runs[0].length) + ExpandedIndexes(runs[1..], buffer)
    ensures TotalIndexed(runs) == runs[0].length + TotalIndexed(runs[1..])
  {
    hide EncodeIndexRun, Repeat, EntryAt;
    Behind(EncodeIndexRun(runs[0]), EncodeIndexRuns(runs[1..]), more);
  }

  predicate Within(runs: seq<IndexRun>, paletteSize: nat) {
    forall i :: 0 <= i < |runs| ==> runs[i].index < paletteSize
  }

  lemma WithinRest(runs: seq<IndexRun>, paletteSize: nat)
    requires runs != [] && Within(runs, paletteSize)
    ensures runs[0].index < paletteSize && Within(runs[1..], paletteSize)
  {
  }

  ghost predicate IndexesDrawn(runs: seq<IndexRun>, more: seq<Byte>, buffer: seq<Byte>, paletteSize: nat)
    requires |buffer| == BUFFER && paletteSize <= 127
  {
    Draws(PaletteRuns(Ahead(EncodeIndexRuns(runs), more), buffer, paletteSize, TotalIndexed(runs)),
          ExpandedIndexes(runs, buffer), |EncodeIndexRuns(runs)|)
  }

  lemma PaletteStep(runs: seq<IndexRun>, more: seq<Byte>, buffer: seq<Byte>, paletteSize: nat)
    requires |buffer| == BUFFER && runs != [] && runs[0].index < paletteSize <= 127
    requires IndexesDrawn(runs[1..], more, buffer, paletteSize)
    ensures IndexesDrawn(runs, more, buffer, paletteSize)
  {
    hide Draws, PaletteRuns, Ahead, EncodeIndexRun, EncodeIndexRuns, ExpandedIndexes, TotalIndexed, EntryAt, Repeat;
    var run, rest := runs[0], runs[1..];
    var tail := Ahead(EncodeIndexRuns(rest), more);
    IndexRunsFirst(runs, more, buffer);
    PaletteTurn(run, tail, buffer, paletteSize, TotalIndexed(runs));
    DrawsBefore(Repeat(EntryAt(buffer, run.index), run.length), |EncodeIndexRun(run)|,
                PaletteRuns(tail, buffer, paletteSize, TotalIndexed(rest)),
                ExpandedIndexes(rest, buffer), |EncodeIndexRuns(rest)|);
  }

  /** Palette runs: when the stream begins with an encoding, every index comes back as its
      palette entry and exactly the encoding is used. */
  lemma {:induction false} PaletteRunsBack(runs: seq<IndexRun>, more: seq<Byte>, buffer: seq<Byte>, paletteSize: nat)
    requires |buffer| == BUFFER && paletteSize <= 127 && Within(runs, paletteSize)
    ensures IndexesDrawn(runs, more, buffer, paletteSize)
    decreases |runs|
  {
    if runs != [] {
      hide IndexesDrawn;
      WithinRest(runs, paletteSize);
      PaletteRunsBack(runs[1..], more, buffer, paletteSize);
      PaletteStep(runs, more, buffer, paletteSize);
    }
  }

  // ----- decoding undoes encoding: packed palettes -------------------------------------------------------

  /** Digits in base `b`, the first one highest. */
  function Number(digits: seq<nat>, b: nat): nat {
    if digits == [] then 0 else Number(digits[..|digits| - 1], b) * b + digits[|digits| - 1]
  }

  lemma {:induction false} NumberBound(digits: seq<nat>, b: nat)
    requires b >= 2 && forall i :: 0 <= i < |digits| ==> digits[i] < b
    ensures Number(digits, b) < Power(b, |digits|)
  {
    if digits != [] {
      var n := |digits| - 1;
      NumberBound(digits[..n], b);
      MulMono(Number(digits[..n], b) + 1, Power(b, n), b);
      MulStep(Number(digits[..n], b), b);
      assert Power(b, n + 1) == b * Power(b, n);
    }
  }

  lemma DropLow(high: nat, low: nat, b: nat, unit: nat)
    requires b >= 2 && low < b && unit >= 1
    ensures b * unit >= 1 && (high * b + low) / (b * unit) == high / unit
  {
    var q := high / unit;
    Divide(high, unit);
    MulStep(q, unit);
    var rest := high - q * unit;
    Regroup(q, unit, b, rest);
    Regroup(q, unit, b, unit);
    MulMono(rest + 1, unit, b);
    MulStep(rest, b);
    MulMono(1, unit, b);
    DivideUnique(high * b + low, q, b * unit);
  }

  lemma Regroup(q: nat, unit: nat, b: nat, rest: nat)
    ensures (q * unit + rest) * b == q * (b * unit) + rest * b
  {
    calc {
      (q * unit + rest) * b;
    ==
      q * unit * b + rest * b;
    ==
      q * (b * unit) + rest * b;
    }
  }

  /** Digit `k` from the low end of a number is digit `k` from the end of its digits. */
  lemma {:induction false} DigitBack(digits: seq<nat>, b: nat, k: nat)
    requires b >= 2 && (forall i :: 0 <= i < |digits| ==> digits[i] < b) && k < |digits|
    ensures Digit(Number(digits, b), b, k) == digits[|digits| - 1 - k]
    decreases k
  {
    var n := |digits| - 1;
    var high, low := Number(digits[..n], b), digits[n];
    if k == 0 {
      assert Power(b, 0) == 1;
      LowDigit(high, low, b);
    } else {
      DropLow(high, low, b, Power(b, k - 1));
      DigitBack(digits[..n], b, k - 1);
    }
  }

  lemma LowDigit(high: nat, low: nat, b: nat)
    requires low < b
    ensures (high * b + low) % b == low
  {
    DivideUnique(high * b + low, high, b);
  }

  ghost predicate Indexes(row: seq<nat>, bits: Depth) {
    forall i :: 0 <= i < |row| ==> row[i] < Base(bits)
  }

  /** The digits of one byte; a short last byte is filled with zeros. */
  function ByteDigits(row: seq<nat>, bits: Depth): (d: seq<nat>)
    ensures |d| == PerByte(bits)
  {
    seq(PerByte(bits), i requires 0 <= i => if i < |row| then row[i] else 0)
  }

  lemma DigitsAreIndexes(row: seq<nat>, bits: Depth)
    requires Indexes(row, bits)
    ensures Indexes(ByteDigits(row, bits), bits)
    ensures forall i :: 0 <= i < |row| && i < PerByte(bits) ==> ByteDigits(row, bits)[i] == row[i]
  {
  }

  lemma PowersOf256()
    ensures Power(2, 8) == 256 && Power(4, 4) == 256 && Power(16, 2) == 256
  {
    assert Power(16, 1) == 16;
    assert Power(4, 1) == 4 && Power(4, 2) == 16 && Power(4, 3) == 64;
    assert Power(2, 1) == 2 && Power(2, 2) == 4 && Power(2, 3) == 8 && Power(2, 4) == 16;
    assert Power(2, 5) == 32 && Power(2, 6) == 64 && Power(2, 7) == 128;
  }

  lemma ByteBound(digits: seq<nat>, bits: Depth)
    requires |digits| == PerByte(bits) && Indexes(digits, bits)
    ensures Number(digits, Base(bits)) < 256
  {
    NumberBound(digits, Base(bits));
    PowersOf256();
    hide Power, Number;
  }

  /** The first byte of a packed row: high bits first. */
  function FirstByte(row: seq<nat>, bits: Depth): Byte {
    Number(ByteDigits(row, bits), Base(bits)) % 256
  }

  /** A row of palette indexes, packed byte after byte. */
  function PackRow(row: seq<nat>, bits: Depth): (bytes: seq<Byte>)
    decreases |row|
  {
    if row == [] then []
    else [FirstByte(row, bits)] + if |row| <= PerByte(bits) then [] else PackRow(row[PerByte(bits)..], bits)
  }

  lemma {:induction false} PackedRowLength(row: seq<nat>, bits: Depth)
    ensures |PackRow(row, bits)| == RowBytes(|row|, bits)
    decreases |row|
  {
    if |row| > PerByte(bits) {
      PackedRowLength(row[PerByte(bits)..], bits);
    }
  }

  lemma NextByte(bits: Depth, x: nat)
    requires x >= PerByte(bits)
    ensures (x - PerByte(bits)) / PerByte(bits) == x / PerByte(bits) - 1
    ensures (x - PerByte(bits)) % PerByte(bits) == x % PerByte(bits)
  {
  }

  lemma IndexBehind(first: Byte, rest: seq<Byte>, bits: Depth, x: nat)
    requires x >= PerByte(bits) && (x - PerByte(bits)) / PerByte(bits) < |rest|
    ensures x / PerByte(bits) < |[first] + rest|
    ensures IndexIn([first] + rest, bits, x) == IndexIn(rest, bits, x - PerByte(bits))
  {
    hide Digit;
    NextByte(bits, x);
  }

  lemma IndexInFirst(first: Byte, rest: seq<Byte>, bits: Depth, x: nat)
    requires x < PerByte(bits)
    ensures x / PerByte(bits) == 0
            && IndexIn([first] + rest, bits, x) == Digit(first, Base(bits), PerByte(bits) - 1 - x)
  {
    hide Digit;
  }

  lemma FirstByteBack(row: seq<nat>, bits: Depth, x: nat)
    requires Indexes(row, bits) && x < |row| && x < PerByte(bits)
    ensures Digit(FirstByte(row, bits), Base(bits), PerByte(bits) - 1 - x) == row[x]
  {
    var digits := ByteDigits(row, bits);
    DigitsAreIndexes(row, bits);
    ByteBound(digits, bits);
    hide Digit, Number, ByteDigits;
    DigitBack(digits, Base(bits), PerByte(bits) - 1 - x);
  }

  /** Unpacking gives every index back. */
  lemma {:induction false} PackBack(row: seq<nat>, bits: Depth, x: nat)
    requires Indexes(row, bits) && x < |row|
    ensures x / PerByte(bits) < |PackRow(row, bits)| && IndexIn(PackRow(row, bits), bits, x) == row[x]
    decreases |row|
  {
    hide Digit, FirstByte, Base, IndexIn;
    var n := PerByte(bits);
    var rest := if |row| <= n then [] else PackRow(row[n..], bits);
    if x < n {
      IndexInFirst(FirstByte(row, bits), rest, bits, x);
      FirstByteBack(row, bits, x);
    } else {
      PackBack(row[n..], bits, x - n);
      IndexBehind(FirstByte(row, bits), rest, bits, x);
    }
  }

  /** The pixels that a row of indexes stands for. */
  function IndexedPixels(row: seq<nat>, buffer: seq<Byte>): (r: seq<Byte>)
    requires |buffer| == BUFFER
    ensures |r| == |row| * 4
  {
    if row == [] then [] else IndexedPixels(row[..|row| - 1], buffer) + EntryAt(buffer, row[|row| - 1] % 256)
  }

  lemma SmallIndex(row: seq<nat>, bits: Depth, x: nat)
    requires Indexes(row, bits) && x < |row|
    ensures row[x] % 256 == row[x]
  {
  }

  lemma {:induction false} RowBack(row: seq<nat>, buffer: seq<Byte>, bits: Depth, x: nat)
    requires |buffer| == BUFFER && Indexes(row, bits) && x <= |row| && |PackRow(row, bits)| == RowBytes(|row|, bits)
    ensures RowPixels(PackRow(row, bits), buffer, |row|, bits, x) == IndexedPixels(row[..x], buffer)
    decreases x
  {
    if x > 0 {
      RowBack(row, buffer, bits, x - 1);
      PackBack(row, bits, x - 1);
      SmallIndex(row, bits, x - 1);
      assert row[..x][..x - 1] == row[..x - 1];
      hide PackRow, EntryAt, IndexIn;
    }
  }

  ghost predicate IndexRows(rows: seq<seq<nat>>, tilew: nat, bits: Depth) {
    forall i :: 0 <= i < |rows| ==> |rows[i]| == tilew && Indexes(rows[i], bits)
  }

  function PackRows(rows: seq<seq<nat>>, bits: Depth): (bytes: seq<Byte>) {
    if rows == [] then [] else PackRow(rows[0], bits) + PackRows(rows[1..], bits)
  }

  function RowsPixels(rows: seq<seq<nat>>, buffer: seq<Byte>): seq<Byte>
    requires |buffer| == BUFFER
  {
    if rows == [] then [] else IndexedPixels(rows[0], buffer) + RowsPixels(rows[1..], buffer)
  }

  /** A row of the encoding, in front of anything else, is drawn and used up. */
  lemma PackedTurn(row: seq<nat>, tail: seq<Byte>, buffer: seq<Byte>, bits: Depth, rows: nat)
    requires |buffer| == BUFFER && Indexes(row, bits) && rows > 0
    ensures PackedRows(Ahead(PackRow(row, bits), tail), buffer, |row|, bits, rows)
         == Before(IndexedPixels(row, buffer), |PackRow(row, bits)|, PackedRows(tail, buffer, |row|, bits, rows - 1))
  {
    var packed := PackRow(row, bits);
    PackedRowLength(row, bits);
    RowBack(row, buffer, bits, |row|);
    assert row[..|row|] == row;
    hide PackRow, RowPixels, IndexedPixels, RowBytes, Indexes, Before;
    assert (packed + tail)[..|packed|] == packed && (packed + tail)[|packed|..] == tail;
  }

  lemma PackRowsFirst(rows: seq<seq<nat>>, more: seq<Byte>, buffer: seq<Byte>, tilew: nat, bits: Depth)
    requires rows != [] && |buffer| == BUFFER && IndexRows(rows, tilew, bits)
    ensures Ahead(PackRows(rows, bits), more) == Ahead(PackRow(rows[0], bits), Ahead(PackRows(rows[1..], bits), more))
    ensures |PackRows(rows, bits)| == |PackRow(rows[0], bits)| + |PackRows(rows[1..], bits)|
    ensures RowsPixels(rows, buffer) == IndexedPixels(rows[0], buffer) + RowsPixels(rows[1..], buffer)
    ensures |rows[0]| == tilew && Indexes(rows[0], bits) && IndexRows(rows[1..], tilew, bits)
  {
    hide PackRow, IndexedPixels, Indexes;
    Behind(PackRow(rows[0], bits), PackRows(rows[1..], bits), more);
  }

  ghost predicate RowsDrawn(rows: seq<seq<nat>>, more: seq<Byte>, buffer: seq<Byte>, tilew: nat, bits: Depth)
    requires |buffer| == BUFFER
  {
    Draws(PackedRows(Ahead(PackRows(rows, bits), more), buffer, tilew, bits, |rows|), RowsPixels(rows, buffer),
          |PackRows(rows, bits)|)
  }

  lemma PackedStep(rows: seq<seq<nat>>, more: seq<Byte>, buffer: seq<Byte>, tilew: nat, bits: Depth)
    requires |buffer| == BUFFER && IndexRows(rows, tilew, bits) && rows != []
    requires RowsDrawn(rows[1..], more, buffer, tilew, bits)
    ensures RowsDrawn(rows, more, buffer, tilew, bits)
  {
    hide Draws, PackedRows, Ahead, PackRows, RowsPixels, IndexRows, Indexes;
    var row, rest := rows[0], rows[1..];
    var tail := Ahead(PackRows(rest, bits), more);
    PackRowsFirst(rows, more, buffer, tilew, bits);
    PackedTurn(row, tail, buffer, bits, |rows|);
    DrawsBefore(IndexedPixels(row, buffer), |PackRow(row, bits)|,
                PackedRows(tail, buffer, tilew, bits, |rest|), RowsPixels(rest, buffer), |PackRows(rest, bits)|);
  }

  /** Packed rows: when the stream begins with an encoding, every pixel comes back as its
      palette entry and exactly the bytes of the rows are used. */
  lemma {:induction false} PackedRowsBack(rows: seq<seq<nat>>, more: seq<Byte>, buffer: seq<Byte>, tilew: nat,
                                          bits: Depth)
    requires |buffer| == BUFFER && IndexRows(rows, tilew, bits)
    ensures RowsDrawn(rows, more, buffer, tilew, bits)
    decreases |rows|
  {
    if rows != [] {
      hide RowsDrawn;
      PackedRowsBack(rows[1..], more, buffer, tilew, bits);
      PackedStep(rows, more, buffer, tilew, bits);
    }
  }
}
