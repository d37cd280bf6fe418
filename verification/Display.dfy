/** The display (pond-sec/app/static/novnc/core/display.js): a hidden canvas that is drawn
    on, a visible canvas that shows a viewport of it, one rectangle that bounds what is out
    of date, and a queue that keeps drawing in order while images load. */
module Displays {
  import opened Bytes
  import opened Canvases

  const FAR := 65535

  /** The bounds of what may be out of date on the visible canvas. */
  datatype Bounds = Bounds(left: int, top: int, right: int, bottom: int)

  const NOTHING := Bounds(FAR, FAR, 0, 0)

  predicate Stale(d: Bounds, i: int, j: int) {
    d.left <= i < d.right && d.top <= j < d.bottom
  }

  function Min(a: int, b: int): int {
    if a <= b then a else b
  }

  function Max(a: int, b: int): int {
    if a >= b then a else b
  }

  /** `_damage`: the bounds grow to take in a rectangle. */
  function Extended(d: Bounds, x: int, y: int, w: int, h: int): Bounds {
    Bounds(Min(d.left, x), Min(d.top, y), Max(d.right, x + w), Max(d.bottom, y + h))
  }

  /** The bounds cover what they covered and the new rectangle, for any coordinates. */
  lemma ExtendedCovers(d: Bounds, x: int, y: int, w: int, h: int, i: int, j: int)
    requires Stale(d, i, j) || Within(i, j, x, y, w, h)
    ensures Stale(Extended(d, x, y, w, h), i, j)
  {
  }

  datatype Viewport = Viewport(x: int, y: int, w: nat, h: nat)

  /** Every opaque pixel of the viewport that is not stale is shown. */
  ghost predicate Agrees(target: Canvas, back: Canvas, vp: Viewport, d: Bounds) {
    forall i, j :: Within(i, j, 0, 0, vp.w, vp.h) && !Stale(d, vp.x + i, vp.y + j) ==> Shown(target, back, vp, i, j)
  }

  predicate Shown(target: Canvas, back: Canvas, vp: Viewport, i: int, j: int) {
    PixelAt(back, vp.x + i, vp.y + j).Opaque? ==> PixelAt(target, i, j) == PixelAt(back, vp.x + i, vp.y + j)
  }

  /** Every opaque pixel of the viewport is shown. */
  ghost predicate AllShown(target: Canvas, back: Canvas, vp: Viewport) {
    forall i, j :: Within(i, j, 0, 0, vp.w, vp.h) ==> Shown(target, back, vp, i, j)
  }

  predicate InsideFrame(vp: Viewport, fbWidth: nat, fbHeight: nat) {
    0 <= vp.x && vp.x + vp.w <= fbWidth && 0 <= vp.y && vp.y + vp.h <= fbHeight
  }

  // ----- flipping ---------------------------------------------------------------------------

  /** The stale part of the viewport is drawn onto the visible canvas. */
  function Flipped(target: Canvas, back: Canvas, vp: Viewport, d: Bounds): Canvas {
    var left, top := Max(d.left, vp.x), Max(d.top, vp.y);
    var right, bottom := Min(d.right, vp.x + vp.w), Min(d.bottom, vp.y + vp.h);
    if left < right && top < bottom
    then DrawnOn(target, back, left, top, right - left, bottom - top, left - vp.x, top - vp.y)
    else target
  }

  lemma FlipShows(target: Canvas, back: Canvas, vp: Viewport, d: Bounds)
    requires Agrees(target, back, vp, d) && target.width == vp.w && target.height == vp.h
    ensures AllShown(Flipped(target, back, vp, d), back, vp) && Agrees(Flipped(target, back, vp, d), back, vp, NOTHING)
  {
    var after := Flipped(target, back, vp, d);
    forall i, j | Within(i, j, 0, 0, vp.w, vp.h) ensures Shown(after, back, vp, i, j) {
      if !Stale(d, vp.x + i, vp.y + j) {
        assert Shown(target, back, vp, i, j);
      }
      FlippedAt(target, back, vp, d, i, j);
    }
  }

  lemma FlippedAt(target: Canvas, back: Canvas, vp: Viewport, d: Bounds, i: int, j: int)
    requires Within(i, j, 0, 0, vp.w, vp.h) && target.width == vp.w && target.height == vp.h
    ensures PixelAt(Flipped(target, back, vp, d), i, j)
         == if Stale(d, vp.x + i, vp.y + j) && PixelAt(back, vp.x + i, vp.y + j).Opaque?
            then PixelAt(back, vp.x + i, vp.y + j) else PixelAt(target, i, j)
  {
    var left, top := Max(d.left, vp.x), Max(d.top, vp.y);
    var right, bottom := Min(d.right, vp.x + vp.w), Min(d.bottom, vp.y + vp.h);
    DrawnAt(target, back, left, top, right - left, bottom - top, left - vp.x, top - vp.y, i, j);
  }

  /** A flip shows the pixel of the back buffer if and only if that is opaque or was there
      already. */
  lemma FlipShowsExactly(target: Canvas, back: Canvas, vp: Viewport, d: Bounds, i: int, j: int)
    requires Agrees(target, back, vp, d) && target.width == vp.w && target.height == vp.h
    requires Within(i, j, 0, 0, vp.w, vp.h)
    ensures PixelAt(Flipped(target, back, vp, d), i, j) == PixelAt(back, vp.x + i, vp.y + j)
       <==> PixelAt(back, vp.x + i, vp.y + j).Opaque? || PixelAt(target, i, j) == PixelAt(back, vp.x + i, vp.y + j)
  {
    FlippedAt(target, back, vp, d, i, j);
    if !Stale(d, vp.x + i, vp.y + j) {
      assert Shown(target, back, vp, i, j);
    }
  }

  /** With a transparent pixel in the back buffer a flip need not show it: what was there
      before stays visible. */
  lemma ClearPixelsLinger()
    ensures exists target, back, vp, d ::
              Agrees(target, back, vp, d) && target.width == vp.w && target.height == vp.h
              && Within(0, 0, 0, 0, vp.w, vp.h)
              && PixelAt(Flipped(target, back, vp, d), 0, 0) != PixelAt(back, vp.x, vp.y)
  {
    var back := Blank(1, 1);
    var target := FilledOn(Blank(1, 1), 0, 0, 1, 1, 7);
    var vp, d := Viewport(0, 0, 1, 1), Bounds(0, 0, 1, 1);
    assert Agrees(target, back, vp, d);
    FlippedAt(target, back, vp, d, 0, 0);
    assert PixelAt(target, 0, 0) == Opaque(7);
    assert PixelAt(back, vp.x, vp.y) == Clear;
  }

  /** Drawing inside a rectangle keeps agreement once the rectangle is stale. */
  lemma DrawingAgrees(target: Canvas, back: Canvas, after: Canvas, vp: Viewport, d: Bounds, x: int, y: int, w: int,
                      h: int)
    requires Agrees(target, back, vp, d) && after.width == back.width && after.height == back.height
    requires forall i, j :: !Within(i, j, x, y, w, h) ==> after.pixel(i, j) == back.pixel(i, j)
    ensures Agrees(target, after, vp, Extended(d, x, y, w, h))
  {
    forall i, j | Within(i, j, 0, 0, vp.w, vp.h) && !Stale(Extended(d, x, y, w, h), vp.x + i, vp.y + j)
      ensures Shown(target, after, vp, i, j)
    {
      if Stale(d, vp.x + i, vp.y + j) || Within(vp.x + i, vp.y + j, x, y, w, h) {
        ExtendedCovers(d, x, y, w, h, vp.x + i, vp.y + j);
      }
      assert Shown(target, back, vp, i, j);
    }
  }

  /** A viewport that is stale as a whole agrees with anything. */
  lemma StaleAgrees(target: Canvas, back: Canvas, vp: Viewport, d: Bounds)
    ensures Agrees(target, back, vp, Extended(d, vp.x, vp.y, vp.w, vp.h))
  {
    forall i, j | Within(i, j, 0, 0, vp.w, vp.h)
      ensures Stale(Extended(d, vp.x, vp.y, vp.w, vp.h), vp.x + i, vp.y + j)
    {
      ExtendedCovers(d, vp.x, vp.y, vp.w, vp.h, vp.x + i, vp.y + j);
    }
  }

  /** Resizing the back buffer uncovers only transparent pixels. */
  lemma ResizingAgrees(target: Canvas, back: Canvas, vp: Viewport, d: Bounds, width: nat, height: nat)
    requires Agrees(target, back, vp, d)
    ensures Agrees(target, ResizedTo(back, width, height), vp, d)
  {
    var after := ResizedTo(back, width, height);
    forall i, j | Within(i, j, 0, 0, vp.w, vp.h) && !Stale(d, vp.x + i, vp.y + j)
      ensures Shown(target, after, vp, i, j)
    {
      assert Shown(target, back, vp, i, j);
    }
  }

  // ----- moving the viewport ----------------------------------------------------------------------

  /** The movement that is left when the far edge would leave the frame. */
  function FarClamped(d: int, at_: int, size: nat, frame: nat): int {
    if at_ + size - 1 + d >= frame then d - (at_ + size - 1 + d - frame + 1) else d
  }

  /** Movement along the rows: the near edge is clamped only for a movement to the left. */
  function MovedX(delta: int, at_: int, size: nat, frame: nat): int {
    FarClamped(if delta < 0 && at_ + delta < 0 then -at_ else delta, at_, size, frame)
  }

  function MovedY(delta: int, at_: int, size: nat, frame: nat): int {
    FarClamped(if at_ + delta < 0 then -at_ else delta, at_, size, frame)
  }

  /** `viewportChangePos`: an unclipped viewport is sent as far to the top left as it goes. */
  function MovedTo(vp: Viewport, clip: bool, deltaX: int, deltaY: int, fbWidth: nat, fbHeight: nat): Viewport {
    var dx, dy := if clip then deltaX else 0 - vp.w, if clip then deltaY else 0 - vp.h;
    vp.(x := vp.x + MovedX(dx, vp.x, vp.w, fbWidth), y := vp.y + MovedY(dy, vp.y, vp.h, fbHeight))
  }

  /** `viewportChangeSize`: at most the frame, and moved only when the size changes. */
  function SizedTo(vp: Viewport, clip: bool, width: nat, height: nat, fbWidth: nat, fbHeight: nat): Viewport {
    var w := if clip && width <= fbWidth then width else fbWidth;
    var h := if clip && height <= fbHeight then height else fbHeight;
    if vp.w == w && vp.h == h then vp else MovedTo(vp.(w := w, h := h), clip, 0, 0, fbWidth, fbHeight)
  }

  /** A viewport inside the frame stays inside, and moves by exactly what was asked when
      there is room. */
  lemma MovesInside(vp: Viewport, clip: bool, deltaX: int, deltaY: int, fbWidth: nat, fbHeight: nat)
    requires vp.w <= fbWidth && vp.h <= fbHeight && vp.x >= 0
    ensures InsideFrame(MovedTo(vp, clip, deltaX, deltaY, fbWidth, fbHeight), fbWidth, fbHeight)
    ensures clip && InsideFrame(vp.(x := vp.x + deltaX, y := vp.y + deltaY), fbWidth, fbHeight) ==>
              MovedTo(vp, clip, deltaX, deltaY, fbWidth, fbHeight) == vp.(x := vp.x + deltaX, y := vp.y + deltaY)
  {
  }

  /** After a change of size the viewport lies inside the frame, unless it stood left of it
      and is clipped or empty: the left edge is clamped only for movements to the left. */
  lemma SettlesInside(vp: Viewport, clip: bool, width: nat, height: nat, fbWidth: nat, fbHeight: nat)
    ensures var sized := SizedTo(vp, clip, width, height, fbWidth, fbHeight);
            && sized.w <= fbWidth && sized.h <= fbHeight
            && (InsideFrame(MovedTo(sized, clip, 0, 0, fbWidth, fbHeight), fbWidth, fbHeight)
                <==> vp.x >= 0 || (!clip && fbWidth > 0))
  {
  }

  // ----- the viewport over whole runs -----------------------------------------------------------------

  /** The viewport, whether it is clipped, and the size of the frame. */
  datatype Frame = Frame(vp: Viewport, clip: bool, width: nat, height: nat)

  datatype ViewStep =
    | Move(deltaX: int, deltaY: int)
    | Size(given: bool, w: nat, h: nat)
    | Clip(on: bool)
    | ResizeTo(w: nat, h: nat)

  /** The viewport is fitted into its frame anew. */
  function Settled(f: Frame): Frame {
    var sized := SizedTo(f.vp, f.clip, f.vp.w, f.vp.h, f.width, f.height);
    f.(vp := MovedTo(sized, f.clip, 0, 0, f.width, f.height))
  }

  function AfterStep(f: Frame, step: ViewStep): Frame {
    match step
    case Move(dx, dy) => f.(vp := MovedTo(f.vp, f.clip, dx, dy, f.width, f.height))
    case Size(given, w, h) =>
      f.(vp := SizedTo(f.vp, f.clip, if given then w else f.width, if given then h else f.height, f.width, f.height))
    case Clip(on) => Settled(f.(clip := on))
    case ResizeTo(w, h) => Settled(f.(width := w, height := h))
  }

  function AfterSteps(f: Frame, steps: seq<ViewStep>): Frame
    decreases |steps|
  {
    if steps == [] then f else AfterSteps(AfterStep(f, steps[0]), steps[1..])
  }

  predicate Framed(f: Frame) {
    InsideFrame(f.vp, f.width, f.height)
  }

  lemma StepFramed(f: Frame, step: ViewStep)
    requires Framed(f)
    ensures Framed(AfterStep(f, step))
  {
    match step
    case Move(dx, dy) => MovesInside(f.vp, f.clip, dx, dy, f.width, f.height);
    case Size(given, w, h) => SizesInside(f, if given then w else f.width, if given then h else f.height);
    case Clip(on) => SettlesInside(f.vp, on, f.vp.w, f.vp.h, f.width, f.height);
    case ResizeTo(w, h) => SettlesInside(f.vp, f.clip, f.vp.w, f.vp.h, w, h);
  }

  lemma SizesInside(f: Frame, w: nat, h: nat)
    requires Framed(f)
    ensures InsideFrame(SizedTo(f.vp, f.clip, w, h, f.width, f.height), f.width, f.height)
  {
  }

  /** A viewport that lies inside its frame lies inside it after every later run. */
  lemma {:induction false} StaysFramed(f: Frame, steps: seq<ViewStep>)
    requires Framed(f)
    ensures Framed(AfterSteps(f, steps))
    decreases |steps|
  {
    hide AfterStep, Framed;
    if steps != [] {
      StepFramed(f, steps[0]);
      StaysFramed(AfterStep(f, steps[0]), steps[1..]);
    }
  }

  /** A viewport that does not stand left of the frame lies inside it from the next resize
      on, whatever follows; the display starts with a viewport at 0. */
  lemma FramedFromResize(f: Frame, w: nat, h: nat, steps: seq<ViewStep>)
    requires f.vp.x >= 0
    ensures Framed(AfterSteps(f, [ResizeTo(w, h)] + steps))
  {
    SettlesInside(f.vp, f.clip, f.vp.w, f.vp.h, w, h);
    assert ([ResizeTo(w, h)] + steps)[1..] == steps;
    StaysFramed(AfterStep(f, ResizeTo(w, h)), steps);
  }

  // ----- what the canvas must be at construction --------------------------------------------------

  /** A display as constructed on a canvas of this size. */
  function Constructed(w: nat, h: nat): Frame {
    Frame(Viewport(0, 0, w, h), false, 0, 0)
  }

  /** On an empty canvas the viewport lies inside its frame in every run. */
  lemma EmptyCanvasFramed(steps: seq<ViewStep>)
    ensures Framed(AfterSteps(Constructed(0, 0), steps))
  {
    StaysFramed(Constructed(0, 0), steps);
  }

  /** Not left of the frame, and not wider than it. */
  predicate NotLeft(f: Frame) {
    f.vp.x >= 0 && f.vp.w <= f.width
  }

  lemma StepNotLeft(f: Frame, step: ViewStep)
    requires NotLeft(f)
    ensures NotLeft(AfterStep(f, step))
  {
  }

  lemma {:induction false} StaysNotLeft(f: Frame, steps: seq<ViewStep>)
    requires NotLeft(f)
    ensures NotLeft(AfterSteps(f, steps))
    decreases |steps|
  {
    hide AfterStep, NotLeft;
    if steps != [] {
      StepNotLeft(f, steps[0]);
      StaysNotLeft(AfterStep(f, steps[0]), steps[1..]);
    }
  }

  lemma {:induction false} AfterBoth(f: Frame, first: seq<ViewStep>, rest: seq<ViewStep>)
    ensures AfterSteps(f, first + rest) == AfterSteps(AfterSteps(f, first), rest)
    decreases |first|
  {
    hide AfterStep;
    if first == [] {
      assert first + rest == rest;
    } else {
      AfterBoth(AfterStep(f, first[0]), first[1..], rest);
      assert (first + rest)[1..] == first[1..] + rest;
    }
  }

  /** From its first resize on every run keeps the viewport inside. */
  ghost predicate FramedFromResizes(f: Frame) {
    forall before, w, h, after :: Framed(AfterSteps(f, before + ([ResizeTo(w, h)] + after)))
  }

  /** This holds if and only if the canvas had no width at construction. */
  lemma FramedExactly(w: nat, h: nat)
    ensures FramedFromResizes(Constructed(w, h)) <==> w == 0
  {
    hide AfterSteps, Framed;
    var start := Constructed(w, h);
    if w == 0 {
      forall before, fw, fh, after ensures Framed(AfterSteps(start, before + ([ResizeTo(fw, fh)] + after))) {
        StaysNotLeft(start, before);
        AfterBoth(start, before, [ResizeTo(fw, fh)] + after);
        FramedFromResize(AfterSteps(start, before), fw, fh, after);
      }
    } else {
      MovedTooSoon(w, h, [ResizeTo(800, 600)]);
      assert [Move(0, 0), Clip(true)] + ([ResizeTo(800, 600)] + []) == [Move(0, 0), Clip(true)] + [ResizeTo(800, 600)];
    }
  }

  // ----- left of the frame --------------------------------------------------------------------------

  /** What does not bring a clipped viewport back that stands at `x`, left of the frame:
      sizing, resizing, clipping again, and movements that do not go left or get it there. */
  predicate LeavesLeft(x: int, width: nat, step: ViewStep) {
    match step
    case Move(dx, _) => dx >= 0 && x + dx < 0
    case Size(_, _, _) => true
    case Clip(on) => on || width == 0
    case ResizeTo(_, _) => true
  }

  lemma StaysLeftExactly(f: Frame, step: ViewStep)
    requires f.clip && f.vp.x < 0 && f.vp.w <= f.width
    ensures AfterStep(f, step).vp.x < 0 <==> LeavesLeft(f.vp.x, f.width, step)
    ensures AfterStep(f, step).vp.w <= AfterStep(f, step).width
  {
  }

  /** Only sizes and clipping. */
  predicate Fits(steps: seq<ViewStep>) {
    forall step <- steps :: step.Size? || step.ResizeTo? || step == Clip(true)
  }

  lemma {:induction false} StaysLeft(f: Frame, steps: seq<ViewStep>)
    requires f.clip && f.vp.x < 0 && f.vp.w <= f.width && Fits(steps)
    ensures !Framed(AfterSteps(f, steps))
    decreases |steps|
  {
    hide AfterStep, LeavesLeft;
    if steps != [] {
      FitLeavesLeft(f, steps[0]);
      StaysLeft(AfterStep(f, steps[0]), steps[1..]);
    }
  }

  lemma FitLeavesLeft(f: Frame, step: ViewStep)
    requires f.clip && f.vp.x < 0 && f.vp.w <= f.width && (step.Size? || step.ResizeTo? || step == Clip(true))
    ensures var g := AfterStep(f, step); g.clip && g.vp.x < 0 && g.vp.w <= g.width
  {
    hide SizedTo, MovedTo;
    StaysLeftExactly(f, step);
  }

  /** On a canvas with a width, a move before the first resize sends the viewport left of the
      empty frame, and no clipping, sizing or resizing brings it back. */
  lemma MovedTooSoon(w: nat, h: nat, steps: seq<ViewStep>)
    requires w > 0 && Fits(steps)
    ensures MovedTo(Viewport(0, 0, w, h), false, 0, 0, 0, 0).x == 0 - w as int
    ensures !Framed(AfterSteps(Constructed(w, h), [Move(0, 0), Clip(true)] + steps))
  {
    var start := Constructed(w, h);
    var moved := AfterStep(start, Move(0, 0));
    assert moved.vp.x == 0 - w as int;
    var clipped := AfterStep(moved, Clip(true));
    assert clipped.clip && clipped.vp.x < 0 && clipped.vp.w == 0;
    hide AfterStep, Framed;
    assert AfterSteps(start, [Move(0, 0), Clip(true)] + steps) == AfterSteps(clipped, steps) by {
      assert ([Move(0, 0), Clip(true)] + steps)[1..] == [Clip(true)] + steps;
      assert ([Clip(true)] + steps)[1..] == steps;
    }
    StaysLeft(clipped, steps);
  }

  // ----- the queue -----------------------------------------------------------------------------------

  datatype Action =
    | Flip
    | Copy(oldX: int, oldY: int, x: int, y: int, width: nat, height: nat)
    | Fill(x: int, y: int, width: nat, height: nat, colour: Colour)
    | Blit(x: int, y: int, width: nat, height: nat, paint: Paint)
    | Img(image: nat, x: int, y: int, width: nat, height: nat)

  /** An image of the browser: whether it has loaded, and what it then turned out to be. */
  datatype Image = Image(complete: bool, width: nat, height: nat, paint: Paint)

  /** What an action draws on the back buffer. */
  function DrawnBy(a: Action, back: Canvas, images: seq<Image>): Canvas
    requires a.Img? ==> a.image < |images|
  {
    match a
    case Flip => back
    case Copy(oldX, oldY, x, y, w, h) => DrawnOn(back, back, oldX, oldY, w, h, x, y)
    case Fill(x, y, w, h, colour) => FilledOn(back, x, y, w, h, colour)
    case Blit(x, y, w, h, paint) => PutOn(back, x, y, w, h, paint)
    case Img(k, x, y, w, h) => PutOn(back, x, y, images[k].width, images[k].height, images[k].paint)
  }

  ghost predicate Known(actions: seq<Action>, images: seq<Image>) {
    forall a <- actions :: a.Img? ==> a.image < |images|
  }

  /** The back buffer after actions in their order. */
  ghost function AfterActions(back: Canvas, actions: seq<Action>, images: seq<Image>): Canvas
    requires Known(actions, images)
  {
    if actions == [] then back
    else DrawnBy(actions[|actions| - 1], AfterActions(back, actions[..|actions| - 1], images), images)
  }

  lemma NothingDrawn(back: Canvas, images: seq<Image>)
    ensures Known([], images) && AfterActions(back, [], images) == back
  {
  }

  lemma OneMore(back: Canvas, actions: seq<Action>, a: Action, images: seq<Image>)
    requires Known(actions, images) && (a.Img? ==> a.image < |images|)
    ensures Known(actions + [a], images)
    ensures AfterActions(back, actions + [a], images) == DrawnBy(a, AfterActions(back, actions, images), images)
  {
    assert (actions + [a])[..|actions|] == actions;
  }

  /** More images, or images that have loaded, change nothing that was drawn. */
  lemma {:induction false} SameDrawings(back: Canvas, actions: seq<Action>, images: seq<Image>, later: seq<Image>)
    requires Known(actions, images) && |images| <= |later|
    requires forall k :: 0 <= k < |images| ==> later[k] == images[k].(complete := later[k].complete)
    ensures Known(actions, later) && AfterActions(back, actions, later) == AfterActions(back, actions, images)
    decreases |actions|
  {
    if actions != [] {
      SameDrawings(back, actions[..|actions| - 1], images, later);
    }
  }

  // ----- pixels out of array buffers ------------------------------------------------------------------

  function Rgb(bytes: seq<Byte>): Colour
    requires |bytes| == 3
  {
    bytes[0] as nat * 0x1_0000 + bytes[1] as nat * 0x100 + bytes[2] as nat
  }

  function PixelIn(buffer: seq<Byte>, first: nat, width: nat, i: int, j: int): Colour {
    var k := first + (j * width + i) * 4;
    if 0 <= k && k + 3 <= |buffer| then Rgb(buffer[k..k + 3]) else 0
  }

  /** Pixels of four bytes along the rows, the first of them at `first`. */
  function PaintFrom(buffer: seq<Byte>, first: nat, width: nat): Paint {
    (i: int, j: int) => PixelIn(buffer, first, width, i, j)
  }

  /** A typed array: a part of an array buffer. */
  datatype ArrayView = ArrayView(buffer: seq<Byte>, byteOffset: nat)

  class Display {
    var back: Canvas
    var target: Canvas
    var fbWidth: nat
    var fbHeight: nat
    var viewportLoc: Viewport
    var clipViewport: bool
    var damageBounds: Bounds
    var renderQ: seq<Action>
    var images: seq<Image>
    var listening: bool
    var flushPending: bool
    ghost var requested: seq<Action>
    ghost var executed: seq<Action>
    ghost var base: Canvas
    ghost var since: nat

    /** Executed actions are a prefix of the requested ones, the queue is the rest. */
    ghost predicate InOrder()
      reads this
    {
      requested == executed + renderQ
    }

    /** The back buffer holds what was executed since it got its size, drawn over `base`. */
    ghost predicate Traced()
      reads this
    {
      && since <= |executed| && Known(executed[since..], images)
      && back == AfterActions(base, executed[since..], images)
    }

    /** Nothing waits but behind an image that has not loaded, or has the wrong size. */
    predicate Blocked()
      reads this
    {
      renderQ != [] ==>
        && renderQ[0].Img? && renderQ[0].image < |images|
        && var img := images[renderQ[0].image];
           if img.complete then img.width != renderQ[0].width || img.height != renderQ[0].height else listening
    }

    function View(): Frame
      reads this
    {
      Frame(viewportLoc, clipViewport, fbWidth, fbHeight)
    }

    /** Everything but the agreement of the canvases. */
    ghost predicate Orderly()
      reads this
    {
      && target.width == viewportLoc.w && target.height == viewportLoc.h
      && InOrder() && Blocked() && Traced()
      && (forall a <- renderQ :: a.Img? ==> a.image < |images|)
      && (flushPending ==> renderQ != [])
    }

    ghost predicate Consistent()
      reads this
    {
      Agrees(target, back, viewportLoc, damageBounds)
    }

    /** `constructor`: the hidden canvas starts transparent. */
    constructor (visible: Canvas, hiddenWidth: nat, hiddenHeight: nat)
      ensures Orderly() && Consistent() && requested == []
      ensures View() == Constructed(visible.width, visible.height)
    {
      target := visible;
      viewportLoc := Viewport(0, 0, visible.width, visible.height);
      back := Blank(hiddenWidth, hiddenHeight);
      damageBounds := Bounds(0, 0, hiddenWidth, hiddenHeight);
      fbWidth, fbHeight, clipViewport := 0, 0, false;
      renderQ, images, listening, flushPending := [], [], false, false;
      requested, executed := [], [];
      base, since := Blank(hiddenWidth, hiddenHeight), 0;
    }

    // ----- carrying actions out --------------------------------------------------------------

    method Damage(x: int, y: int, w: int, h: int)
      modifies `damageBounds
      ensures damageBounds == Extended(old(damageBounds), x, y, w, h)
    {
      var d := damageBounds;
      if x < d.left {
        d := d.(left := x);
      }
      if y < d.top {
        d := d.(top := y);
      }
      if x + w > d.right {
        d := d.(right := x + w);
      }
      if y + h > d.bottom {
        d := d.(bottom := y + h);
      }
      damageBounds := d;
    }

    /** A flip that executes: every opaque pixel of the viewport is shown afterwards. */
    method FlipNow()
      requires target.width == viewportLoc.w && target.height == viewportLoc.h
      modifies `target, `damageBounds
      ensures target == Flipped(old(target), back, viewportLoc, old(damageBounds)) && damageBounds == NOTHING
      ensures target.width == viewportLoc.w && target.height == viewportLoc.h
      ensures old(Consistent()) ==> Consistent() && AllShown(target, back, viewportLoc)
    {
      if Agrees(target, back, viewportLoc, damageBounds) {
        FlipShows(target, back, viewportLoc, damageBounds);
      }
      var x, y := damageBounds.left, damageBounds.top;
      var w, h := damageBounds.right - x, damageBounds.bottom - y;
      var vx, vy := x - viewportLoc.x, y - viewportLoc.y;
      if vx < 0 {
        w := w + vx;
        x := x - vx;
        vx := 0;
      }
      if vy < 0 {
        h := h + vy;
        y := y - vy;
        vy := 0;
      }
      if vx + w > viewportLoc.w {
        w := viewportLoc.w - vx;
      }
      if vy + h > viewportLoc.h {
        h := viewportLoc.h - vy;
      }
      if w > 0 && h > 0 {
        target := DrawnOn(target, back, x, y, w, h, vx, vy);
      }
      damageBounds := NOTHING;
    }

    /** Any other action that executes: it draws on the back buffer and makes its rectangle
        stale. */
    method DrawNow(a: Action)
      requires !a.Flip? && (a.Img? ==> a.image < |images|)
      requires a.Img? ==> images[a.image].width == a.width && images[a.image].height == a.height
      modifies `back, `damageBounds
      ensures back == DrawnBy(a, old(back), images)
      ensures damageBounds == Extended(old(damageBounds), a.x, a.y, a.width, a.height)
      ensures old(Consistent()) ==> Consistent()
    {
      ghost var before := back;
      match a {
        case Copy(oldX, oldY, x, y, w, h) => back := DrawnOn(back, back, oldX, oldY, w, h, x, y);
        case Fill(x, y, w, h, colour) => back := FilledOn(back, x, y, w, h, colour);
        case Blit(x, y, w, h, paint) => back := PutOn(back, x, y, w, h, paint);
        case Img(k, x, y, w, h) => back := PutOn(back, x, y, images[k].width, images[k].height, images[k].paint);
      }
      if Agrees(target, before, viewportLoc, damageBounds) {
        DrawingAgrees(target, before, back, viewportLoc, damageBounds, a.x, a.y, a.width, a.height);
      }
      Damage(a.x, a.y, a.width, a.height);
    }

    /** One action of the queue, with `fromQueue` set. */
    method Execute(a: Action)
      requires target.width == viewportLoc.w && target.height == viewportLoc.h
      requires a.Img? ==> a.image < |images| && images[a.image].width == a.width && images[a.image].height == a.height
      modifies `back, `target, `damageBounds, `executed
      ensures target.width == viewportLoc.w && target.height == viewportLoc.h
      ensures executed == old(executed) + [a]
      ensures back == DrawnBy(a, old(back), images)
      ensures old(Consistent()) ==> Consistent() && (a.Flip? ==> AllShown(target, back, viewportLoc))
      ensures old(Traced()) ==> Traced()
    {
      ghost var before := executed;
      if Traced() {
        OneMore(base, executed[since..], a, images);
      }
      hide AfterActions, Agrees, AllShown, Flipped, DrawnBy;
      if a.Flip? {
        FlipNow();
      } else {
        DrawNow(a);
      }
      executed := executed + [a];
      if since <= |before| {
        assert executed[since..] == before[since..] + [a];
      }
    }

    // ----- the queue --------------------------------------------------------------------------

    /** `_scanRenderQ`: actions are executed in order until the queue is empty or its head is
        an image that cannot be drawn; a pending flush resolves only on an empty queue. */
    method ScanRenderQ() returns (resolved: bool)
      requires target.width == viewportLoc.w && target.height == viewportLoc.h && InOrder() && Traced()
      requires forall a <- renderQ :: a.Img? ==> a.image < |images|
      modifies `back, `target, `damageBounds, `executed, `renderQ, `listening, `flushPending
      ensures Orderly() && (old(Consistent()) ==> Consistent())
      ensures old(executed) <= executed
      ensures resolved <==> old(flushPending) && renderQ == []
    {
      hide AfterActions, Agrees;
      var ready := true;
      while ready && |renderQ| > 0
        invariant target.width == viewportLoc.w && target.height == viewportLoc.h && InOrder() && Traced()
        invariant (forall a <- renderQ :: a.Img? ==> a.image < |images|) && flushPending == old(flushPending)
        invariant old(Consistent()) ==> Consistent()
        invariant old(executed) <= executed
        invariant !ready ==> renderQ != [] && Blocked()
        decreases |renderQ| + if ready then 1 else 0
      {
        var a := renderQ[0];
        if a.Img? {
          if images[a.image].complete {
            if images[a.image].width != a.width || images[a.image].height != a.height {
              return false;
            }
          } else {
            listening := true;
            ready := false;
          }
        }
        if ready {
          Execute(a);
          renderQ := renderQ[1..];
        }
      }
      resolved := false;
      if |renderQ| == 0 && flushPending {
        flushPending := false;
        resolved := true;
      }
    }

    /** `_renderQPush`. */
    method RenderQPush(a: Action) returns (resolved: bool)
      requires Orderly() && (a.Img? ==> a.image < |images|)
      modifies `back, `target, `damageBounds, `executed, `renderQ, `listening, `flushPending, `requested
      ensures Orderly() && (old(Consistent()) ==> Consistent())
      ensures requested == old(requested) + [a] && old(executed) <= executed
      ensures old(renderQ) != [] ==> renderQ == old(renderQ) + [a] && executed == old(executed)
      ensures resolved ==> renderQ == []
    {
      requested := requested + [a];
      renderQ := renderQ + [a];
      resolved := false;
      if |renderQ| == 1 {
        resolved := ScanRenderQ();
      }
    }

    /** A request other than an image: queued behind waiting work, else executed at once. */
    method Request(a: Action)
      requires Orderly() && !a.Img?
      modifies `back, `target, `damageBounds, `executed, `renderQ, `listening, `flushPending, `requested
      ensures Orderly() && (old(Consistent()) ==> Consistent())
      ensures requested == old(requested) + [a]
      ensures old(renderQ) != [] ==> renderQ == old(renderQ) + [a] && executed == old(executed)
                                     && back == old(back) && target == old(target) && damageBounds == old(damageBounds)
      ensures old(renderQ) == [] ==> renderQ == [] && executed == requested && back == DrawnBy(a, old(back), images)
      ensures old(renderQ) == [] && a.Flip? && old(Consistent()) ==> AllShown(target, back, viewportLoc)
    {
      if |renderQ| != 0 {
        requested := requested + [a];
        renderQ := renderQ + [a];
      } else {
        Execute(a);
        requested := requested + [a];
      }
    }

    /** `blitImage`: at once, the pixels lie at the offset in the array; behind waiting work, the
        array is copied from the start of its buffer, whatever part of that it shows. */
    method BlitImage(x: int, y: int, width: nat, height: nat, arr: ArrayView, offset: nat)
      requires Orderly() && arr.byteOffset + offset + width * height * 4 <= |arr.buffer|
      modifies `back, `target, `damageBounds, `executed, `renderQ, `listening, `flushPending, `requested
      ensures Orderly() && (old(Consistent()) ==> Consistent())
      ensures var paint := if old(renderQ) != [] then PaintFrom(arr.buffer[..width * height * 4], 0, width)
                           else PaintFrom(arr.buffer, arr.byteOffset + offset, width);
              requested == old(requested) + [Blit(x, y, width, height, paint)]
              && (if old(renderQ) != [] then renderQ == old(renderQ) + [Blit(x, y, width, height, paint)]
                  else renderQ == [] && back == PutOn(old(back), x, y, width, height, paint))
    {
      hide PaintFrom, Agrees, AfterActions, PutOn;
      if |renderQ| != 0 {
        var newArr := arr.buffer[..width * height * 4];
        Request(Blit(x, y, width, height, PaintFrom(newArr, 0, width)));
      } else {
        Request(Blit(x, y, width, height, PaintFrom(arr.buffer, arr.byteOffset + offset, width)));
      }
    }

    /** `imageRect`: an image always goes through the queue. */
    method ImageRect(x: int, y: int, width: nat, height: nat, image: Image) returns (resolved: bool)
      requires Orderly()
      modifies `back, `target, `damageBounds, `executed, `renderQ, `listening, `flushPending, `requested, `images
      ensures Orderly() && (old(Consistent()) ==> Consistent()) && (resolved ==> renderQ == [])
      ensures requested == if width == 0 || height == 0 then old(requested)
                           else old(requested) + [Img(|old(images)|, x, y, width, height)]
    {
      if width == 0 || height == 0 {
        return false;
      }
      SameDrawings(base, executed[since..], images, images + [image]);
      images := images + [image];
      resolved := RenderQPush(Img(|images| - 1, x, y, width, height));
    }

    /** The browser loads image `k`; a listener, if there is one, resumes the queue. */
    method ImageLoaded(k: nat) returns (resolved: bool)
      requires Orderly() && k < |images| && !images[k].complete
      modifies `back, `target, `damageBounds, `executed, `renderQ, `listening, `flushPending, `images
      ensures Orderly() && (old(Consistent()) ==> Consistent()) && (resolved ==> renderQ == [])
      ensures requested == old(requested) && old(executed) <= executed
    {
      SameDrawings(base, executed[since..], images, images[k := images[k].(complete := true)]);
      images := images[k := images[k].(complete := true)];
      resolved := false;
      if |renderQ| > 0 && renderQ[0].image == k {
        listening := false;
        resolved := ScanRenderQ();
      }
    }

    /** `flush`: resolved at once on an empty queue, otherwise when it has drained. */
    method Flush() returns (resolved: bool)
      requires Orderly()
      modifies `flushPending
      ensures Orderly() && (resolved <==> renderQ == []) && (!resolved ==> flushPending)
      ensures resolved ==> executed == requested
    {
      if |renderQ| == 0 {
        return true;
      }
      flushPending := true;
      return false;
    }

    // ----- the viewport ---------------------------------------------------------------------------

    /** The whole viewport is made stale and a flip requested. */
    method ShowAgain()
      requires Orderly()
      modifies `back, `target, `damageBounds, `executed, `renderQ, `listening, `flushPending, `requested
      ensures Orderly() && Consistent() && back == old(back)
    {
      hide Agrees;
      StaleAgrees(target, back, viewportLoc, damageBounds);
      Damage(viewportLoc.x, viewportLoc.y, viewportLoc.w, viewportLoc.h);
      Request(Flip);
    }

    /** The movement that the edges of the frame allow. */
    method Clamp(deltaX: int, deltaY: int) returns (dx: int, dy: int)
      ensures viewportLoc.(x := viewportLoc.x + dx, y := viewportLoc.y + dy)
           == MovedTo(viewportLoc, clipViewport, deltaX, deltaY, fbWidth, fbHeight)
    {
      var vp := viewportLoc;
      dx, dy := deltaX, deltaY;
      if !clipViewport {
        dx, dy := 0 - vp.w, 0 - vp.h;
      }
      var vx2, vy2 := vp.x + vp.w - 1, vp.y + vp.h - 1;
      if dx < 0 && vp.x + dx < 0 {
        dx := -vp.x;
      }
      if vx2 + dx >= fbWidth {
        dx := dx - (vx2 + dx - fbWidth + 1);
      }
      if vp.y + dy < 0 {
        dy := -vp.y;
      }
      if vy2 + dy >= fbHeight {
        dy := dy - (vy2 + dy - fbHeight + 1);
      }
    }

    /** `viewportChangePos`, also while the canvases do not agree yet. */
    method ViewportChangePos(deltaX: int, deltaY: int)
      requires Orderly()
      modifies `back, `target, `damageBounds, `executed, `renderQ, `listening, `flushPending, `requested, `viewportLoc
      ensures Orderly() && back == old(back)
      ensures View() == AfterStep(old(View()), Move(deltaX, deltaY))
      ensures old(Framed(View())) ==> Framed(View())
      ensures old(Consistent()) || viewportLoc != old(viewportLoc) ==> Consistent()
    {
      StepFramedIf(View(), Move(deltaX, deltaY));
      hide Agrees, MovedTo, Framed, AfterActions;
      var dx, dy := Clamp(deltaX, deltaY);
      if dx == 0 && dy == 0 {
        return;
      }
      viewportLoc := viewportLoc.(x := viewportLoc.x + dx, y := viewportLoc.y + dy);
      ShowAgain();
    }

    /** `viewportChangeSize`; without a size, or unclipped, the whole frame is shown. */
    method ViewportChangeSize(given: bool, width: nat, height: nat)
      requires Orderly() && Consistent()
      modifies `back, `target, `damageBounds, `executed, `renderQ, `listening, `flushPending, `requested, `viewportLoc
      ensures Orderly() && Consistent() && back == old(back)
      ensures View() == AfterStep(old(View()), Size(given, width, height))
      ensures old(Framed(View())) ==> Framed(View())
    {
      StepFramedIf(View(), Size(given, width, height));
      hide Agrees, MovedTo, Framed, AfterActions;
      var w, h := width, height;
      if !clipViewport || !given {
        w, h := fbWidth, fbHeight;
      }
      if w > fbWidth {
        w := fbWidth;
      }
      if h > fbHeight {
        h := fbHeight;
      }
      if viewportLoc.w != w || viewportLoc.h != h {
        viewportLoc := viewportLoc.(w := w, h := h);
        target := Blank(w, h);
        ViewportChangePos(0, 0);
        ShowAgain();
      }
    }

    /** `clipViewport`, the setter. */
    method SetClipViewport(viewport: bool)
      requires Orderly() && Consistent()
      modifies `back, `target, `damageBounds, `executed, `renderQ, `listening, `flushPending, `requested, `viewportLoc,
               `clipViewport
      ensures Orderly() && Consistent()
      ensures View() == AfterStep(old(View()), Clip(viewport))
      ensures Framed(View()) <==> old(viewportLoc.x) >= 0 || (!viewport && fbWidth > 0)
    {
      SettlesInside(viewportLoc, viewport, viewportLoc.w, viewportLoc.h, fbWidth, fbHeight);
      hide Agrees, MovedTo, SizedTo, InsideFrame, AfterActions;
      clipViewport := viewport;
      ViewportChangeSize(true, viewportLoc.w, viewportLoc.h);
      ViewportChangePos(0, 0);
    }

    /** The frame and the back buffer get their new size; what fits of the old content is kept. */
    method ResizeBack(width: nat, height: nat)
      requires Orderly() && Consistent()
      modifies `back, `fbWidth, `fbHeight, `base, `since
      ensures Orderly() && Consistent() && fbWidth == width && fbHeight == height
      ensures back == if old(back.width) != width || old(back.height) != height then ResizedTo(old(back), width, height)
                      else old(back)
    {
      hide ResizedTo, AfterActions;
      fbWidth, fbHeight := width, height;
      if back.width != width || back.height != height {
        ResizingAgrees(target, back, viewportLoc, damageBounds, width, height);
        back := ResizedTo(back, width, height);
        base, since := back, |executed|;
        NothingDrawn(back, images);
        assert executed[since..] == [];
      }
    }

    /** `resize`: what fits of the old content is kept; afterwards the viewport lies inside
        the frame, unless it is clipped and stood left of it. */
    method Resize(width: nat, height: nat)
      requires Orderly() && Consistent()
      modifies `back, `target, `damageBounds, `executed, `renderQ, `listening, `flushPending, `requested, `viewportLoc,
               `fbWidth, `fbHeight, `base, `since
      ensures Orderly() && Consistent()
      ensures View() == AfterStep(old(View()), ResizeTo(width, height))
      ensures back == if old(back.width) != width || old(back.height) != height then ResizedTo(old(back), width, height)
                      else old(back)
      ensures Framed(View()) <==> old(viewportLoc.x) >= 0 || (!clipViewport && width > 0)
    {
      SettlesInside(viewportLoc, clipViewport, viewportLoc.w, viewportLoc.h, width, height);
      hide Agrees, MovedTo, SizedTo, InsideFrame, ResizedTo, AfterActions;
      ResizeBack(width, height);
      ViewportChangeSize(true, viewportLoc.w, viewportLoc.h);
      ViewportChangePos(0, 0);
    }
  }

  lemma StepFramedIf(f: Frame, step: ViewStep)
    ensures Framed(f) ==> Framed(AfterStep(f, step))
  {
    hide Framed, AfterStep;
    if Framed(f) {
      StepFramed(f, step);
    }
  }
}
