/** The gradient filter of Tight encoding
    (pond-sec/app/static/novnc/core/decoders/tight.js). */
module TightGradient {
  import opened Bytes
  import opened Resume
  import opened Arithmetic

  function Clamp(v: int): Byte {
    if v < 0 then 0 else if v > 255 then 255 else v
  }

  // ----- the filter in two dimensions --------------------------------------------------------

  /** Channel `c` of the pixel in column `x` and row `y`. */
  type Picture = (int, int, int) -> Byte

  /** Outside the image everything is zero. */
  function At(image: Picture, x: int, y: int, c: int): Byte {
    if x < 0 || y < 0 then 0 else image(x, y, c)
  }

  function Predicted(image: Picture, x: int, y: int, c: int): Byte {
    Clamp(At(image, x - 1, y, c) + At(image, x, y - 1, c) - At(image, x - 1, y - 1, c))
  }

  function Residual(image: Picture, x: int, y: int, c: int): Byte {
    (image(x, y, c) - Predicted(image, x, y, c)) % 256
  }

  /** What a server sends for a `width` by `height` image. */
  function Residuals(image: Picture, width: nat, height: nat): (data: seq<Byte>)
    requires width > 0
    ensures |data| == width * height * 3
  {
    seq(width * height * 3,
        k requires 0 <= k < width * height * 3 => Residual(image, k / 3 % width, k / 3 / width, k % 3))
  }

  // ----- what the decoder computes, pixel after pixel ------------------------------------------

  /** Channel `c` of pixel number `p`, counted along the rows. */
  function Restored(data: seq<Byte>, width: nat, p: nat, c: nat): Byte
    requires width > 0 && c < 3 && p * 3 + c < |data|
    decreases p
  {
    var left: int := LeftOf(data, width, p, c);
    var upper: int := UpperOf(data, width, p, c);
    var upperleft: int := UpperLeftOf(data, width, p, c);
    (data[p * 3 + c] as int + Clamp(left + upper - upperleft)) % 256
  }

  function LeftOf(data: seq<Byte>, width: nat, p: nat, c: nat): Byte
    requires width > 0 && c < 3 && p * 3 + c < |data|
    decreases p, 0
  {
    if p % width == 0 then 0 else Restored(data, width, p - 1, c)
  }

  function UpperOf(data: seq<Byte>, width: nat, p: nat, c: nat): Byte
    requires width > 0 && c < 3 && p * 3 + c < |data|
    decreases p, 0
  {
    if p < width then 0 else Restored(data, width, p - width, c)
  }

  function UpperLeftOf(data: seq<Byte>, width: nat, p: nat, c: nat): Byte
    requires width > 0 && c < 3 && p * 3 + c < |data|
    decreases p, 0
  {
    if p < width || p % width == 0 then 0 else Restored(data, width, p - width - 1, c)
  }

  // ----- the prediction -----------------------------------------------------------------------

  function Distance(a: int, b: int): nat {
    if a <= b then b - a else a - b
  }

  /** No byte is nearer to the plane through the three neighbours than the prediction, and the
      residual is what has to be added to it. */
  lemma NearestByte(image: Picture, x: int, y: int, c: int, other: Byte)
    requires x > 0 && y > 0
    ensures var plane := image(x - 1, y, c) as int + image(x, y - 1, c) as int - image(x - 1, y - 1, c) as int;
            Distance(Predicted(image, x, y, c), plane) <= Distance(other, plane)
    ensures (Predicted(image, x, y, c) as int + Residual(image, x, y, c) as int) % 256 == image(x, y, c)
  {
    AddBack(image(x, y, c), Predicted(image, x, y, c));
  }

  /** At the upper and left edges the pixel before it is predicted, and nothing for the first. */
  lemma EdgesPredicted(image: Picture, x: int, y: int, c: int)
    requires x >= 0 && y >= 0
    ensures Predicted(image, 0, 0, c) == 0
    ensures x > 0 ==> Predicted(image, x, 0, c) == image(x - 1, 0, c)
    ensures y > 0 ==> Predicted(image, 0, y, c) == image(0, y - 1, c)
  {
  }

  // ----- round trip -----------------------------------------------------------------------------

  lemma LeftPlace(p: nat, w: nat)
    requires w > 0 && p % w != 0
    ensures p > 0 && (p - 1) % w == p % w - 1 && (p - 1) / w == p / w
  {
    Divide(p, w);
    DivideUnique(p - 1, p / w, w);
  }

  lemma UpperPlace(p: nat, w: nat)
    requires w > 0
    ensures p >= w ==> (p - w) % w == p % w && (p - w) / w == p / w - 1 && p / w >= 1
    ensures p < w ==> p / w == 0 && p % w == p
  {
    Divide(p, w);
    if p >= w {
      var q := (p - w) / w;
      Divide(p - w, w);
      MulStep(q, w);
      DivideUnique(p, q + 1, w);
    } else {
      DivideUnique(p, 0, w);
    }
  }

  lemma ResidualAt(image: Picture, width: nat, height: nat, p: nat, c: nat)
    requires width > 0 && c < 3 && p < width * height
    ensures p * 3 + c < |Residuals(image, width, height)|
    ensures Residuals(image, width, height)[p * 3 + c] == Residual(image, p % width, p / width, c)
  {
    assert p * 3 + c < width * height * 3;
    assert (p * 3 + c) / 3 == p && (p * 3 + c) % 3 == c;
  }

  lemma AddBack(v: Byte, prediction: Byte)
    ensures ((v - prediction) % 256 + prediction) % 256 == v
  {
  }

  lemma LeftBack(data: seq<Byte>, image: Picture, w: nat, p: nat, c: nat)
    requires w > 0 && c < 3 && p * 3 + c < |data|
    requires p % w != 0 ==> Restored(data, w, p - 1, c) == image((p - 1) % w, (p - 1) / w, c)
    ensures LeftOf(data, w, p, c) == At(image, p % w - 1, p / w, c)
  {
    hide Restored;
    if p % w != 0 {
      LeftPlace(p, w);
    }
  }

  lemma UpperBack(data: seq<Byte>, image: Picture, w: nat, p: nat, c: nat)
    requires w > 0 && c < 3 && p * 3 + c < |data|
    requires p >= w ==> Restored(data, w, p - w, c) == image((p - w) % w, (p - w) / w, c)
    ensures UpperOf(data, w, p, c) == At(image, p % w, p / w - 1, c)
  {
    hide Restored;
    UpperPlace(p, w);
  }

  lemma UpperLeftBack(data: seq<Byte>, image: Picture, w: nat, p: nat, c: nat)
    requires w > 0 && c < 3 && p * 3 + c < |data|
    requires p >= w && p % w != 0 ==> Restored(data, w, p - w - 1, c) == image((p - w - 1) % w, (p - w - 1) / w, c)
    ensures UpperLeftOf(data, w, p, c) == At(image, p % w - 1, p / w - 1, c)
  {
    hide Restored;
    UpperPlace(p, w);
    if p >= w && p % w != 0 {
      LeftPlace(p - w, w);
    }
  }

  lemma RestoredFrom(data: seq<Byte>, image: Picture, w: nat, p: nat, c: nat)
    requires w > 0 && c < 3 && p * 3 + c < |data| && data[p * 3 + c] == Residual(image, p % w, p / w, c)
    requires LeftOf(data, w, p, c) == At(image, p % w - 1, p / w, c)
    requires UpperOf(data, w, p, c) == At(image, p % w, p / w - 1, c)
    requires UpperLeftOf(data, w, p, c) == At(image, p % w - 1, p / w - 1, c)
    ensures Restored(data, w, p, c) == image(p % w, p / w, c)
  {
    hide LeftOf, UpperOf, UpperLeftOf;
    AddBack(image(p % w, p / w, c), Predicted(image, p % w, p / w, c));
  }

  /** Channel by channel, the data is what prediction leaves of the image. */
  ghost predicate AreResiduals(data: seq<Byte>, image: Picture, w: nat)
    requires w > 0
  {
    forall p: nat, c: nat :: c < 3 && p * 3 + c < |data| ==> data[p * 3 + c] == Residual(image, p % w, p / w, c)
  }

  lemma {:induction false} RestoredBack(data: seq<Byte>, image: Picture, w: nat, p: nat, c: nat)
    requires w > 0 && AreResiduals(data, image, w) && c < 3 && p * 3 + c < |data|
    ensures Restored(data, w, p, c) == image(p % w, p / w, c)
    decreases p
  {
    assert data[p * 3 + c] == Residual(image, p % w, p / w, c);
    hide AreResiduals, LeftOf, UpperOf, UpperLeftOf, Restored, Residual;
    if p % w != 0 {
      LeftPlace(p, w);
      RestoredBack(data, image, w, p - 1, c);
    }
    if p >= w {
      RestoredBack(data, image, w, p - w, c);
      UpperPlace(p, w);
      if p % w != 0 {
        LeftPlace(p - w, w);
        RestoredBack(data, image, w, p - w - 1, c);
      }
    }
    LeftBack(data, image, w, p, c);
    UpperBack(data, image, w, p, c);
    UpperLeftBack(data, image, w, p, c);
    RestoredFrom(data, image, w, p, c);
  }

  lemma InsideResiduals(total: nat, p: nat, c: nat)
    requires c < 3 && p * 3 + c < total * 3
    ensures p < total
  {
  }

  lemma TheyAre(image: Picture, width: nat, height: nat)
    requires width > 0
    ensures AreResiduals(Residuals(image, width, height), image, width)
  {
    hide Residual, Residuals;
    ResidualsLength(image, width, height);
    var data, total := Residuals(image, width, height), width * height;
    forall p: nat, c: nat | c < 3 && p * 3 + c < |data|
      ensures data[p * 3 + c] == Residual(image, p % width, p / width, c)
    {
      InsideResiduals(total, p, c);
      ResidualAt(image, width, height, p, c);
    }
  }

  /** Decoding the residuals of an image restores every channel of every pixel, at any
      width and height of at least one. */
  lemma RoundTrip(image: Picture, width: nat, height: nat, p: nat, c: nat)
    requires width > 0 && c < 3 && p < width * height
    ensures var data := Residuals(image, width, height);
            p * 3 + c < |data| && Restored(data, width, p, c) == image(p % width, p / width, c)
  {
    hide Residuals, Restored, AreResiduals;
    TheyAre(image, width, height);
    ResidualsLength(image, width, height);
    RestoredBack(Residuals(image, width, height), image, width, p, c);
  }

  // ----- the loops ---------------------------------------------------------------------------------

  /** The three channels of pixel `p`. */
  function Channels(data: seq<Byte>, width: nat, p: nat): (r: seq<Byte>)
    requires width > 0 && p * 3 + 2 < |data|
    ensures |r| == 3 && forall c :: 0 <= c < 3 ==> r[c] == Restored(data, width, p, c)
  {
    [Restored(data, width, p, 0), Restored(data, width, p, 1), Restored(data, width, p, 2)]
  }

  /** The first `n` pixels with full alpha. */
  function Pixels(data: seq<Byte>, width: nat, n: nat): (r: seq<Byte>)
    requires width > 0 && n * 3 <= |data|
    ensures |r| == n * 4
  {
    if n == 0 then [] else Pixels(data, width, n - 1) + Channels(data, width, n - 1) + [255]
  }

  /** Channel after channel, the buffer holds what `Restored` says. */
  lemma {:induction false} PixelsAt(data: seq<Byte>, width: nat, n: nat, q: nat, c: nat)
    requires width > 0 && n * 3 <= |data| && q < n && c < 4
    ensures q * 3 + 2 < |data|
    ensures Pixels(data, width, n)[q * 4 + c] == if c < 3 then Restored(data, width, q, c) else 255
  {
    hide Restored;
    if q < n - 1 {
      PixelsAt(data, width, n - 1, q, c);
    }
  }

  /** One channel: `upperIndex` reads the row above, `rgbxIndex` writes behind what is done. */
  method ChannelBelow(rgbx: array<Byte>, rgbxIndex: nat, upperIndex: nat, left: array<Byte>, upper: array<Byte>,
                      upperleft: array<Byte>, data: seq<Byte>, width: nat, p: nat, c: nat)
    requires left.Length == 3 && upper.Length == 3 && upperleft.Length == 3 && width > 0 && c < 3
    requires left != upper && left != upperleft && upper != upperleft
    requires rgbx != left && rgbx != upper && rgbx != upperleft
    requires upperIndex < rgbxIndex < rgbx.Length && p * 3 + 2 < |data|
    requires rgbx[upperIndex] == UpperOf(data, width, p, c)
    requires left[c] == LeftOf(data, width, p, c) && upperleft[c] == UpperLeftOf(data, width, p, c)
    modifies rgbx, left, upper, upperleft
    ensures rgbx[..rgbxIndex + 1] == old(rgbx[..rgbxIndex]) + [Restored(data, width, p, c)]
    ensures left[c] == Restored(data, width, p, c) && upperleft[c] == UpperOf(data, width, p, c)
    ensures forall k :: 0 <= k < 3 && k != c ==> left[k] == old(left[k]) && upperleft[k] == old(upperleft[k])
  {
    hide UpperOf, LeftOf, UpperLeftOf;
    upper[c] := rgbx[upperIndex];
    var prediction := left[c] as int + upper[c] as int - upperleft[c] as int;
    if prediction < 0 {
      prediction := 0;
    } else if prediction > 255 {
      prediction := 255;
    }
    var value := data[p * 3 + c] as int + prediction;
    rgbx[rgbxIndex] := value % 256;
    upperleft[c] := upper[c];
    left[c] := value % 256;
  }

  /** `left` and `upperleft` hold the neighbours of pixel `p`. */
  ghost predicate Neighbours(left: array<Byte>, upperleft: array<Byte>, data: seq<Byte>, width: nat, p: nat)
    requires left.Length == 3 && upperleft.Length == 3 && width > 0 && p * 3 + 2 < |data|
    reads left, upperleft
  {
    forall c :: 0 <= c < 3 ==> left[c] == LeftOf(data, width, p, c) && upperleft[c] == UpperLeftOf(data, width, p, c)
  }

  /** The pixel above is found `width` pixels before. */
  lemma UpperInPixels(data: seq<Byte>, width: nat, p: nat, c: nat)
    requires width > 0 && width <= p && p * 3 + 2 < |data| && c < 3
    ensures Pixels(data, width, p)[(p - width) * 4 + c] == UpperOf(data, width, p, c)
  {
    PixelsAt(data, width, p, p - width, c);
  }

  /** One pixel below the first row, its three channels in a loop. */
  method PixelBelow(rgbx: array<Byte>, left: array<Byte>, upper: array<Byte>, upperleft: array<Byte>, data: seq<Byte>,
                    width: nat, p: nat)
    requires left.Length == 3 && upper.Length == 3 && upperleft.Length == 3 && width > 0
    requires left != upper && left != upperleft && upper != upperleft
    requires rgbx != left && rgbx != upper && rgbx != upperleft
    requires width <= p && p * 4 + 3 < rgbx.Length && p * 3 + 2 < |data|
    requires rgbx[..p * 4] == Pixels(data, width, p) && Neighbours(left, upperleft, data, width, p)
    modifies rgbx, left, upper, upperleft
    ensures rgbx[..p * 4 + 4] == Pixels(data, width, p + 1)
    ensures forall c :: 0 <= c < 3 ==>
            left[c] == Restored(data, width, p, c) && upperleft[c] == UpperOf(data, width, p, c)
  {
    ghost var r, done := Channels(data, width, p), Pixels(data, width, p);
    assert Pixels(data, width, p + 1) == done + r + [255];
    hide Restored, UpperOf, LeftOf, UpperLeftOf, Pixels;
    for c := 0 to 3
      invariant rgbx[..p * 4 + c] == done + r[..c]
      invariant forall k :: 0 <= k < c ==> left[k] == r[k] && upperleft[k] == UpperOf(data, width, p, k)
      invariant forall k :: c <= k < 3 ==>
                left[k] == LeftOf(data, width, p, k) && upperleft[k] == UpperLeftOf(data, width, p, k)
    {
      UpperInPixels(data, width, p, c);
      assert rgbx[..p * 4 + c][(p - width) * 4 + c] == done[(p - width) * 4 + c];
      ChannelBelow(rgbx, p * 4 + c, (p - width) * 4 + c, left, upper, upperleft, data, width, p, c);
      assert r[..c + 1] == r[..c] + [r[c]];
    }
    rgbx[p * 4 + 3] := 255;
    assert rgbx[..p * 4 + 4] == rgbx[..p * 4 + 3] + [255];
  }

  /** Places `x` in row `y`. */
  lemma Place(w: nat, x: nat, y: nat)
    requires x < w
    ensures (y * w + x) % w == x && (y * w + x) / w == y
  {
    DivideUnique(y * w + x, y, w);
  }

  /** At the start of a row nothing lies to the left. */
  lemma RowStart(data: seq<Byte>, w: nat, y: nat, c: nat)
    requires w > 0 && c < 3 && y * w * 3 + 2 < |data|
    ensures LeftOf(data, w, y * w, c) == 0 && UpperLeftOf(data, w, y * w, c) == 0
  {
    Place(w, 0, y);
  }

  /** Within a row the neighbours of the next pixel are this pixel and the one above it. */
  lemma RowStep(data: seq<Byte>, w: nat, x: nat, y: nat, c: nat)
    requires x + 1 < w && c < 3 && (y * w + x + 1) * 3 + 2 < |data|
    ensures LeftOf(data, w, y * w + x + 1, c) == Restored(data, w, y * w + x, c)
    ensures UpperLeftOf(data, w, y * w + x + 1, c) == UpperOf(data, w, y * w + x, c)
  {
    hide Restored;
    Place(w, x + 1, y);
    if y >= 1 {
      MulMono(1, y, w);
    } else {
      assert y * w == 0;
    }
  }

  /** The first row has nothing above. */
  lemma FirstRow(data: seq<Byte>, w: nat, p: nat, c: nat)
    requires p < w && c < 3 && p * 3 + 2 < |data|
    ensures Restored(data, w, p, c) == (data[p * 3 + c] as int + LeftOf(data, w, p, c)) % 256
  {
  }

  /** One channel of the first row. */
  method ChannelFirst(rgbx: array<Byte>, left: array<Byte>, data: seq<Byte>, width: nat, p: nat, c: nat)
    requires left.Length == 3 && rgbx != left && p < width && c < 3 && p * 4 + c < rgbx.Length && p * 3 + 2 < |data|
    requires left[c] == LeftOf(data, width, p, c)
    modifies rgbx, left
    ensures rgbx[..p * 4 + c + 1] == old(rgbx[..p * 4 + c]) + [Restored(data, width, p, c)]
    ensures left[c] == Restored(data, width, p, c) && forall k :: 0 <= k < 3 && k != c ==> left[k] == old(left[k])
  {
    FirstRow(data, width, p, c);
    hide Restored, LeftOf;
    var prediction := left[c];
    var value := data[p * 3 + c] as int + prediction;
    rgbx[p * 4 + c] := value % 256;
    left[c] := value % 256;
  }

  method PixelFirst(rgbx: array<Byte>, left: array<Byte>, data: seq<Byte>, width: nat, p: nat)
    requires left.Length == 3 && rgbx != left && p < width && p * 4 + 3 < rgbx.Length && p * 3 + 2 < |data|
    requires rgbx[..p * 4] == Pixels(data, width, p) && forall c :: 0 <= c < 3 ==> left[c] == LeftOf(data, width, p, c)
    modifies rgbx, left
    ensures rgbx[..p * 4 + 4] == Pixels(data, width, p + 1)
    ensures forall c :: 0 <= c < 3 ==> left[c] == Restored(data, width, p, c)
  {
    ghost var r, done := Channels(data, width, p), Pixels(data, width, p);
    assert Pixels(data, width, p + 1) == done + r + [255];
    hide Restored, LeftOf, Pixels;
    for c := 0 to 3
      invariant rgbx[..p * 4 + c] == done + r[..c]
      invariant forall k :: 0 <= k < c ==> left[k] == r[k]
      invariant forall k :: c <= k < 3 ==> left[k] == LeftOf(data, width, p, k)
    {
      ChannelFirst(rgbx, left, data, width, p, c);
      assert r[..c + 1] == r[..c] + [r[c]];
    }
    rgbx[p * 4 + 3] := 255;
    assert rgbx[..p * 4 + 4] == rgbx[..p * 4 + 3] + [255];
  }

  /** The loop over the first row. */
  method FilterFirstRow(rgbx: array<Byte>, data: seq<Byte>, width: nat)
    requires width > 0 && width * 4 <= rgbx.Length && width * 3 <= |data|
    modifies rgbx
    ensures rgbx[..width * 4] == Pixels(data, width, width)
  {
    hide Restored, Pixels;
    var left := new Byte[3](_ => 0);
    NoPixels(data, width);
    for x := 0 to width
      invariant rgbx[..x * 4] == Pixels(data, width, x)
      invariant x < width ==> forall c :: 0 <= c < 3 ==> left[c] == LeftOf(data, width, x, c)
    {
      PixelFirst(rgbx, left, data, width, x);
      if x + 1 < width {
        forall c | 0 <= c < 3 ensures LeftOf(data, width, x + 1, c) == Restored(data, width, x, c) {
          RowStep(data, width, x, 0, c);
        }
      }
    }
  }

  lemma NoPixels(data: seq<Byte>, width: nat)
    requires width > 0
    ensures Pixels(data, width, 0) == []
  {
  }

  /** The loop over one further row. */
  method FilterRow(rgbx: array<Byte>, left: array<Byte>, upper: array<Byte>, upperleft: array<Byte>, data: seq<Byte>,
                   width: nat, y: nat)
    requires left.Length == 3 && upper.Length == 3 && upperleft.Length == 3 && width > 0 && y >= 1
    requires left != upper && left != upperleft && upper != upperleft
    requires rgbx != left && rgbx != upper && rgbx != upperleft
    requires (y * width + width) * 4 <= rgbx.Length && (y * width + width) * 3 <= |data|
    requires rgbx[..y * width * 4] == Pixels(data, width, y * width)
    modifies rgbx, left, upper, upperleft
    ensures rgbx[..(y * width + width) * 4] == Pixels(data, width, y * width + width)
  {
    hide Restored, Pixels, UpperOf, LeftOf, UpperLeftOf;
    for c := 0 to 3
      modifies left, upperleft
      invariant forall k :: 0 <= k < c ==> left[k] == 0 && upperleft[k] == 0
    {
      left[c], upperleft[c] := 0, 0;
    }
    var p := y * width;
    ghost var start := p;
    forall c | 0 <= c < 3 ensures LeftOf(data, width, p, c) == 0 && UpperLeftOf(data, width, p, c) == 0 {
      RowStart(data, width, y, c);
    }
    MulMono(1, y, width);
    for x := 0 to width
      invariant p == start + x && rgbx[..p * 4] == Pixels(data, width, p)
      invariant x < width ==> Neighbours(left, upperleft, data, width, p)
    {
      PixelBelow(rgbx, left, upper, upperleft, data, width, p);
      if x + 1 < width {
        forall c | 0 <= c < 3
          ensures LeftOf(data, width, p + 1, c) == Restored(data, width, p, c)
                  && UpperLeftOf(data, width, p + 1, c) == UpperOf(data, width, p, c)
        {
          RowStep(data, width, x, y, c);
        }
      }
      p := p + 1;
    }
  }

  /** `_gradientFilter`, once the residuals are there. */
  method GradientFilter(data: seq<Byte>, width: nat, height: nat) returns (image: seq<Byte>)
    requires width > 0 && height > 0 && |data| == width * height * 3
    ensures image == Pixels(data, width, width * height)
  {
    hide Pixels;
    var total := width * height;
    var rgbx := new Byte[4 * total](_ => 0);
    MulMono(1, height, width);
    FilterFirstRow(rgbx, data, width);
    var left, upper, upperleft := new Byte[3](_ => 0), new Byte[3](_ => 0), new Byte[3](_ => 0);
    var done := width;
    for y := 1 to height
      invariant done == y * width <= total && rgbx[..done * 4] == Pixels(data, width, done)
    {
      MulMono(y + 1, height, width);
      MulStep(y, width);
      FilterRow(rgbx, left, upper, upperleft, data, width, y);
      done := done + width;
    }
    image := rgbx[..];
  }

  lemma InsideTotal(width: nat, height: nat, x: nat, y: nat) returns (p: nat, total: nat)
    requires x < width && y < height
    ensures p == y * width + x && total == width * height && p < total && p % width == x && p / width == y
  {
    p, total := y * width + x, width * height;
    MulMono(y + 1, height, width);
    MulStep(y, width);
    Place(width, x, y);
  }

  lemma ResidualsLength(image: Picture, width: nat, height: nat)
    requires width > 0
    ensures |Residuals(image, width, height)| == width * height * 3
  {
  }

  /** What the filter yields for the residuals of an image is that image, opaque. */
  lemma FilterUndoesPrediction(image: Picture, width: nat, height: nat, x: nat, y: nat, c: nat)
    requires x < width && y < height && c < 4
    ensures var p, total, data := y * width + x, width * height, Residuals(image, width, height);
            && p < total && |data| == total * 3
            && Pixels(data, width, total)[p * 4 + c] == if c < 3 then image(x, y, c) else 255
  {
    hide Residuals, Pixels, Restored;
    var p, total := InsideTotal(width, height, x, y);
    ResidualsLength(image, width, height);
    PixelsAt(Residuals(image, width, height), width, total, p, c);
    if c < 3 {
      RoundTrip(image, width, height, p, c);
    }
  }
}
