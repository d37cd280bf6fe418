/** Canvases as the browser draws on them: a size and a pixel at every place, either fully
    transparent or opaque. */
module Canvases {
  type Colour = nat

  datatype Pixel = Clear | Opaque(colour: Colour)

  /** What is drawn at column `i` and row `j` of an image. */
  type Paint = (int, int) -> Colour

  datatype Canvas = Canvas(width: nat, height: nat, pixel: (int, int) -> Pixel)

  predicate Within(i: int, j: int, x: int, y: int, w: int, h: int) {
    x <= i < x + w && y <= j < y + h
  }

  function PixelAt(c: Canvas, i: int, j: int): Pixel {
    if Within(i, j, 0, 0, c.width, c.height) then c.pixel(i, j) else Clear
  }

  function Blank(width: nat, height: nat): Canvas {
    Canvas(width, height, (i, j) => Clear)
  }

  function FilledOn(c: Canvas, x: int, y: int, w: int, h: int, colour: Colour): Canvas {
    c.(pixel := (i, j) => if Within(i, j, x, y, w, h) then Opaque(colour) else c.pixel(i, j))
  }

  /** `putImageData`: the pixels are replaced. */
  function PutOn(c: Canvas, x: int, y: int, w: int, h: int, paint: Paint): Canvas {
    c.(pixel := (i, j) => if Within(i, j, x, y, w, h) then Opaque(paint(i - x, j - y)) else c.pixel(i, j))
  }

  /** `drawImage` of one canvas onto another: source pixels outside the source canvas and
      transparent ones leave the destination as it is. */
  function DrawnOn(c: Canvas, source: Canvas, sx: int, sy: int, w: int, h: int, dx: int, dy: int): Canvas {
    c.(pixel := (i, j) =>
      if Within(i, j, dx, dy, w, h) && PixelAt(source, sx + i - dx, sy + j - dy).Opaque?
      then PixelAt(source, sx + i - dx, sy + j - dy)
      else c.pixel(i, j))
  }

  /** The canvas gets a new size; what was saved is put back at the top left. */
  function ResizedTo(c: Canvas, width: nat, height: nat): Canvas {
    Canvas(width, height, (i, j) => PixelAt(c, i, j))
  }

  lemma DrawnAt(c: Canvas, source: Canvas, sx: int, sy: int, w: int, h: int, dx: int, dy: int, i: int, j: int)
    ensures PixelAt(DrawnOn(c, source, sx, sy, w, h, dx, dy), i, j)
         == if !Within(i, j, 0, 0, c.width, c.height) then Clear
            else if Within(i, j, dx, dy, w, h) && PixelAt(source, sx + i - dx, sy + j - dy).Opaque?
            then PixelAt(source, sx + i - dx, sy + j - dy)
            else PixelAt(c, i, j)
  {
  }
}
