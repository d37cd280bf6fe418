/** What the canvases show, pixel by pixel: where every pixel of the back buffer comes from,
    what a flip makes visible, and which pixels a queued blit draws. */
module Drawings {
  import opened Bytes
  import opened Arithmetic
  import opened Canvases
  import opened Displays

  // ----- where a pixel comes from ------------------------------------------------------------------

  predicate Covers(a: Action, images: seq<Image>, i: int, j: int)
    requires a.Img? ==> a.image < |images|
  {
    match a
    case Flip => false
    case Img(k, x, y, _, _) => x <= i < x + images[k].width && y <= j < y + images[k].height
    case _ => a.x <= i < a.x + a.width && a.y <= j < a.y + a.height
  }

  /** What an action leaves at (i, j): there was `under`, and `source` where it copies from. */
  function Left(a: Action, images: seq<Image>, i: int, j: int, under: Pixel, source: Pixel): Pixel
    requires a.Img? ==> a.image < |images|
  {
    if !Covers(a, images, i, j) then under
    else
      match a
      case Flip => under
      case Fill(_, _, _, _, colour) => Opaque(colour)
      case Blit(x, y, _, _, paint) => Opaque(paint(i - x, j - y))
      case Img(k, x, y, _, _) => Opaque(images[k].paint(i - x, j - y))
      case Copy(_, _, _, _, _, _) => if source.Opaque? then source else under
  }

  /** The pixel at (i, j) after `actions`, traced back through them: the last action that
      covers it gives its colour, and a copy sends on to where it copied from. */
  ghost function TracedPixel(back: Canvas, actions: seq<Action>, images: seq<Image>, i: int, j: int): Pixel
    requires Known(actions, images)
    decreases |actions|
  {
    if !(0 <= i < back.width && 0 <= j < back.height) then Clear
    else if actions == [] then back.pixel(i, j)
    else
      var a, before := actions[|actions| - 1], actions[..|actions| - 1];
      Left(a, images, i, j, TracedPixel(back, before, images, i, j),
           if a.Copy? then TracedPixel(back, before, images, a.oldX + (i - a.x), a.oldY + (j - a.y)) else Clear)
  }

  lemma SameSize(back: Canvas, actions: seq<Action>, images: seq<Image>)
    requires Known(actions, images)
    ensures AfterActions(back, actions, images).width == back.width
    ensures AfterActions(back, actions, images).height == back.height
  {
  }

  /** One action changes exactly the pixels of its rectangle. */
  lemma DrawsExactly(a: Action, back: Canvas, images: seq<Image>, i: int, j: int)
    requires (a.Img? ==> a.image < |images|) && 0 <= i < back.width && 0 <= j < back.height
    ensures PixelAt(DrawnBy(a, back, images), i, j)
         == Left(a, images, i, j, PixelAt(back, i, j),
                 if a.Copy? then PixelAt(back, a.oldX + (i - a.x), a.oldY + (j - a.y)) else Clear)
  {
  }

  /** Every pixel of the back buffer is the one that tracing finds, for any list of actions. */
  lemma {:induction false} PixelTraced(back: Canvas, actions: seq<Action>, images: seq<Image>, i: int, j: int)
    requires Known(actions, images)
    ensures PixelAt(AfterActions(back, actions, images), i, j) == TracedPixel(back, actions, images, i, j)
    decreases |actions|
  {
    SameSize(back, actions, images);
    if actions != [] && 0 <= i < back.width && 0 <= j < back.height {
      var a, before := actions[|actions| - 1], actions[..|actions| - 1];
      SameSize(back, before, images);
      DrawsExactly(a, AfterActions(back, before, images), images, i, j);
      hide DrawnBy, Left;
      PixelTraced(back, before, images, i, j);
      if a.Copy? {
        PixelTraced(back, before, images, a.oldX + (i - a.x), a.oldY + (j - a.y));
      }
    }
  }

  /** Once a flip has executed, the visible canvas shows the traced pixel of its place
      wherever that is opaque. */
  lemma VisibleTraced(target: Canvas, base: Canvas, actions: seq<Action>, images: seq<Image>, vp: Viewport, i: int,
                      j: int)
    requires Known(actions, images) && AllShown(target, AfterActions(base, actions, images), vp)
    requires Within(i, j, 0, 0, vp.w, vp.h)
    ensures var pixel := TracedPixel(base, actions, images, vp.x + i, vp.y + j);
            pixel.Opaque? ==> PixelAt(target, i, j) == pixel
  {
    PixelTraced(base, actions, images, vp.x + i, vp.y + j);
    assert Shown(target, AfterActions(base, actions, images), vp, i, j);
  }

  lemma ResizedExactly(back: Canvas, width: nat, height: nat, i: int, j: int)
    ensures PixelAt(ResizedTo(back, width, height), i, j)
         == if Within(i, j, 0, 0, width, height) && Within(i, j, 0, 0, back.width, back.height) then back.pixel(i, j)
            else Clear
  {
  }

  // ----- pictures out of array buffers -----------------------------------------------------------

  lemma Cell(w: nat, h: nat, i: nat, j: nat)
    requires i < w && j < h
    ensures 0 <= (j * w + i) * 4 && (j * w + i) * 4 + 4 <= w * h * 4
  {
    MulMono(j + 1, h, w);
    MulStep(j, w);
  }

  /** A blit that executes at once draws the bytes that its array shows. */
  lemma ArrayShown(arr: ArrayView, pixels: seq<Byte>, w: nat, h: nat, i: nat, j: nat)
    requires |pixels| == w * h * 4 && arr.byteOffset + |pixels| <= |arr.buffer| && i < w && j < h
    requires arr.buffer[arr.byteOffset..arr.byteOffset + |pixels|] == pixels
    ensures (j * w + i) * 4 + 4 <= |pixels|
    ensures PaintFrom(arr.buffer, arr.byteOffset, w)(i, j) == Rgb(pixels[(j * w + i) * 4..(j * w + i) * 4 + 3])
  {
    Cell(w, h, i, j);
    var k := (j * w + i) * 4;
    assert arr.buffer[arr.byteOffset + k..arr.byteOffset + k + 3] == pixels[k..k + 3];
  }

  ghost predicate SamePicture(w: nat, h: nat, p: Paint, q: Paint) {
    forall i, j :: 0 <= i < w && 0 <= j < h ==> p(i, j) == q(i, j)
  }

  /** The picture of a blit that has to wait is the one of a blit that executes at once. */
  ghost predicate QueuedAlike(w: nat, h: nat, arr: ArrayView, offset: nat)
    requires w * h * 4 <= |arr.buffer|
  {
    SamePicture(w, h, PaintFrom(arr.buffer[..w * h * 4], 0, w), PaintFrom(arr.buffer, arr.byteOffset + offset, w))
  }

  lemma PrefixPixel(buffer: seq<Byte>, n: nat, k: nat)
    requires k + 4 <= n <= |buffer|
    ensures buffer[..n][k..k + 3] == buffer[k..k + 3]
  {
  }

  lemma StartOfBuffer(w: nat, h: nat, arr: ArrayView, offset: nat)
    requires w * h * 4 <= |arr.buffer| && arr.byteOffset + offset == 0
    ensures QueuedAlike(w, h, arr, offset)
  {
    forall i, j | 0 <= i < w && 0 <= j < h
      ensures PixelIn(arr.buffer[..w * h * 4], 0, w, i, j) == PixelIn(arr.buffer, 0, w, i, j)
    {
      Cell(w, h, i, j);
      PrefixPixel(arr.buffer, w * h * 4, (j * w + i) * 4);
    }
  }

  lemma LaterInBuffer(w: nat, h: nat, size: nat, first: nat) returns (buffer: seq<Byte>)
    requires first > 0 && w > 0 && h > 0 && first + w * h * 4 <= size
    ensures |buffer| == size && !QueuedAlike(w, h, ArrayView(buffer, first), 0)
  {
    assert w * h >= 1;
    buffer := seq(size, k => if k == first then 1 else 0);
    var p, q := PaintFrom(buffer[..w * h * 4], 0, w), PaintFrom(buffer, first, w);
    assert q(0, 0) == Rgb(buffer[first..first + 3]) && buffer[first..first + 3][0] == 1;
    assert p(0, 0) == Rgb(buffer[..w * h * 4][0..3]) && buffer[..w * h * 4][0..3][0] == 0;
    assert p(0, 0) != q(0, 0);
  }

  /** Waiting changes nothing about the picture, whatever the buffer holds, if and only if the
      pixels lie at the start of their buffer or there are none. */
  lemma QueuedExactly(w: nat, h: nat, size: nat, byteOffset: nat, offset: nat)
    requires byteOffset + offset + w * h * 4 <= size
    ensures (forall buffer: seq<Byte> :: |buffer| == size ==> QueuedAlike(w, h, ArrayView(buffer, byteOffset), offset))
       <==> byteOffset + offset == 0 || w == 0 || h == 0
  {
    hide PaintFrom;
    if byteOffset + offset == 0 {
      forall buffer: seq<Byte> | |buffer| == size ensures QueuedAlike(w, h, ArrayView(buffer, byteOffset), offset) {
        StartOfBuffer(w, h, ArrayView(buffer, byteOffset), offset);
      }
    } else if w > 0 && h > 0 {
      var buffer := LaterInBuffer(w, h, size, byteOffset + offset);
      assert !QueuedAlike(w, h, ArrayView(buffer, byteOffset), offset);
    }
  }

  /** A green pixel that a decoder shows behind one red pixel of its buffer: queued, the blit
      draws the red one. */
  lemma QueuedBlitOff()
    ensures var arr := ArrayView([255, 0, 0, 255, 0, 255, 0, 255], 4);
            && PaintFrom(arr.buffer, arr.byteOffset, 1)(0, 0) == Rgb([0, 255, 0])
            && PaintFrom(arr.buffer[..4], 0, 1)(0, 0) == Rgb([255, 0, 0])
  {
    var buffer: seq<Byte> := [255, 0, 0, 255, 0, 255, 0, 255];
    assert buffer[4..7] == [0, 255, 0] && buffer[..4][0..3] == [255, 0, 0];
  }

  // ----- the damaged part and the viewport ---------------------------------------------------------

  /** The bounds are the smallest that cover what they covered and the new rectangle. */
  lemma SmallestBounds(d: Bounds, x: int, y: int, w: int, h: int, e: Bounds)
    requires d.left < d.right && d.top < d.bottom && w > 0 && h > 0
    requires forall i, j :: Stale(d, i, j) || Within(i, j, x, y, w, h) ==> Stale(e, i, j)
    ensures forall i, j :: Stale(Extended(d, x, y, w, h), i, j) ==> Stale(e, i, j)
  {
    assert Stale(d, d.left, d.top) && Stale(d, d.right - 1, d.bottom - 1);
    assert Within(x, y, x, y, w, h) && Within(x + w - 1, y + h - 1, x, y, w, h);
  }

  /** A move along the columns ends between the edges; along the rows only a move to the left
      is stopped at the left edge. */
  lemma MovedExactly(vp: Viewport, deltaX: int, deltaY: int, fbWidth: nat, fbHeight: nat)
    requires vp.w <= fbWidth && vp.h <= fbHeight
    ensures var moved, x := MovedTo(vp, true, deltaX, deltaY, fbWidth, fbHeight), Min(vp.x + deltaX, fbWidth - vp.w);
            && moved.y == Max(0, Min(vp.y + deltaY, fbHeight - vp.h))
            && moved.x == (if deltaX < 0 then Max(0, x) else x) && moved.w == vp.w && moved.h == vp.h
  {
  }

  /** The viewport gets the size that was asked for as far as the frame has it; unclipped it
      gets the size of the frame. */
  lemma SizedExactly(vp: Viewport, clip: bool, width: nat, height: nat, fbWidth: nat, fbHeight: nat)
    ensures var sized := SizedTo(vp, clip, width, height, fbWidth, fbHeight);
            && sized.w == (if clip then Min(width, fbWidth) else fbWidth)
            && sized.h == (if clip then Min(height, fbHeight) else fbHeight)
            && (sized.w == vp.w && sized.h == vp.h ==> sized == vp)
  {
  }
}
