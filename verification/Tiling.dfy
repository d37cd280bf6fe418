/** Tiles of a rectangle, counted along the rows from the top left; the tiles at the right
    and lower edges are cut off. */
module Tiling {
  import opened Arithmetic

  datatype Rect = Rect(x: int, y: int, width: nat, height: nat)

  function Across(n: nat, side: nat): nat
    requires side > 0
  {
    (n + side - 1) / side
  }

  function TotalTiles(r: Rect, side: nat): nat
    requires side > 0
  {
    Across(r.width, side) * Across(r.height, side)
  }

  function CutOff(n: nat, side: nat): nat {
    if n < side then n else side
  }

  lemma AcrossBounds(n: nat, side: nat, k: nat)
    requires side > 0
    ensures k < Across(n, side) <==> k * side < n
  {
    Divide(n + side - 1, side);
    if k < Across(n, side) {
      MulMono(k + 1, Across(n, side), side);
      MulStep(k, side);
    } else {
      MulMono(Across(n, side), k, side);
    }
  }

  lemma TileInside(r: Rect, side: nat, cur: nat)
    requires side > 0 && cur < TotalTiles(r, side)
    ensures Across(r.width, side) > 0
    ensures cur % Across(r.width, side) * side < r.width && cur / Across(r.width, side) * side < r.height
  {
    var across, down := Across(r.width, side), Across(r.height, side);
    assert across > 0;
    var row := cur / across;
    Divide(cur, across);
    AcrossBounds(r.width, side, cur % across);
    AcrossBounds(r.height, side, row);
    if row >= down {
      MulMono(down, row, across);
    }
  }

  /** The tile whose top left corner is `left` columns and `top` rows into the rectangle. */
  function TileFrom(r: Rect, side: nat, left: nat, top: nat): (t: Rect)
    requires side > 0 && left < r.width && top < r.height
    ensures 1 <= t.width <= side && 1 <= t.height <= side
    ensures r.x <= t.x && t.x + t.width <= r.x + r.width && r.y <= t.y && t.y + t.height <= r.y + r.height
  {
    Rect(r.x + left, r.y + top, CutOff(r.width - left, side), CutOff(r.height - top, side))
  }

  /** Tile number `cur`. */
  function TileAt(r: Rect, side: nat, cur: nat): (t: Rect)
    requires side > 0 && cur < TotalTiles(r, side)
    ensures 1 <= t.width <= side && 1 <= t.height <= side
    ensures r.x <= t.x && t.x + t.width <= r.x + r.width && r.y <= t.y && t.y + t.height <= r.y + r.height
  {
    TileInside(r, side, cur);
    TileFrom(r, side, cur % Across(r.width, side) * side, cur / Across(r.width, side) * side)
  }

  predicate Inside(t: Rect, x: int, y: int) {
    t.x <= x < t.x + t.width && t.y <= y < t.y + t.height
  }

  /** The number of the tile that covers column `i` and row `j` of the rectangle. */
  function TileOf(r: Rect, side: nat, i: nat, j: nat): nat
    requires side > 0
  {
    MulMono(0, j / side, Across(r.width, side));
    i / side + j / side * Across(r.width, side)
  }

  lemma TileCovers(r: Rect, side: nat, x: int, y: int)
    requires side > 0 && Inside(r, x, y)
    ensures TileOf(r, side, x - r.x, y - r.y) < TotalTiles(r, side)
    ensures Inside(TileAt(r, side, TileOf(r, side, x - r.x, y - r.y)), x, y)
  {
    var i, j := x - r.x, y - r.y;
    var across, down := Across(r.width, side), Across(r.height, side);
    Divide(i, side);
    Divide(j, side);
    AcrossBounds(r.width, side, i / side);
    AcrossBounds(r.height, side, j / side);
    MulMono(j / side + 1, down, across);
    MulStep(j / side, across);
    DivideUnique(TileOf(r, side, i, j), j / side, across);
  }

  lemma OnlyTile(r: Rect, side: nat, x: int, y: int, cur: nat)
    requires side > 0 && Inside(r, x, y) && cur < TotalTiles(r, side) && Inside(TileAt(r, side, cur), x, y)
    ensures cur == TileOf(r, side, x - r.x, y - r.y)
  {
    var across := Across(r.width, side);
    TileInside(r, side, cur);
    DivideUnique(x - r.x, cur % across, side);
    DivideUnique(y - r.y, cur / across, side);
    Divide(cur, across);
  }

  /** The tiles partition the rectangle: each of its pixels lies in exactly one tile. */
  lemma TilesPartition(r: Rect, side: nat, x: int, y: int)
    requires side > 0 && Inside(r, x, y)
    ensures exists cur :: 0 <= cur < TotalTiles(r, side) && Inside(TileAt(r, side, cur), x, y)
    ensures forall a, b | 0 <= a < TotalTiles(r, side) && 0 <= b < TotalTiles(r, side)
                          && Inside(TileAt(r, side, a), x, y) && Inside(TileAt(r, side, b), x, y) :: a == b
  {
    TileCovers(r, side, x, y);
    forall a, b | 0 <= a < TotalTiles(r, side) && 0 <= b < TotalTiles(r, side)
                  && Inside(TileAt(r, side, a), x, y) && Inside(TileAt(r, side, b), x, y)
      ensures a == b
    {
      OnlyTile(r, side, x, y, a);
      OnlyTile(r, side, x, y, b);
    }
  }

  lemma NextColumn(r: Rect, side: nat, cur: nat)
    requires side > 0 && cur + 1 < TotalTiles(r, side)
    ensures Across(r.width, side) > 0
    ensures var across := Across(r.width, side);
            if cur % across + 1 < across
            then (cur + 1) % across == cur % across + 1 && (cur + 1) / across == cur / across
            else (cur + 1) % across == 0 && (cur + 1) / across == cur / across + 1
  {
    var across := Across(r.width, side);
    assert across > 0;
    Divide(cur, across);
    if cur % across + 1 < across {
      DivideUnique(cur + 1, cur / across, across);
    } else {
      MulStep(cur / across, across);
      DivideUnique(cur + 1, cur / across + 1, across);
    }
  }

  lemma TilePlace(r: Rect, side: nat, cur: nat)
    requires side > 0 && cur < TotalTiles(r, side)
    ensures Across(r.width, side) > 0
    ensures var t, column, row := TileAt(r, side, cur), cur % Across(r.width, side), cur / Across(r.width, side);
            && t.x == r.x + column * side && t.y == r.y + row * side
            && (t.x + t.width < r.x + r.width <==> column + 1 < Across(r.width, side))
            && (t.x + t.width < r.x + r.width ==> t.width == side)
            && ((row + 1) * side < r.height ==> t.height == side)
  {
    var across := Across(r.width, side);
    TileInside(r, side, cur);
    Divide(cur, across);
    MulStep(cur % across, side);
    MulStep(cur / across, side);
    AcrossBounds(r.width, side, cur % across + 1);
  }

  /** Tiles come along the rows from the top left: the first one stands in the corner, and
      the next one on the right, or at the left edge of the next row. */
  lemma TilesInRows(r: Rect, side: nat, cur: nat)
    requires side > 0 && cur < TotalTiles(r, side)
    ensures cur == 0 ==> TileAt(r, side, cur).x == r.x && TileAt(r, side, cur).y == r.y
    ensures cur + 1 < TotalTiles(r, side) ==>
              var t, next := TileAt(r, side, cur), TileAt(r, side, cur + 1);
              if t.x + t.width < r.x + r.width then next.x == t.x + t.width && next.y == t.y
              else next.x == r.x && next.y == t.y + t.height
  {
    TilePlace(r, side, cur);
    var across := Across(r.width, side);
    if cur + 1 < TotalTiles(r, side) {
      TilePlace(r, side, cur + 1);
      NextColumn(r, side, cur);
      TileInside(r, side, cur + 1);
      MulStep(cur % across, side);
      MulStep(cur / across, side);
      hide TileAt, Across, TotalTiles;
    } else if cur == 0 {
      DivideUnique(0, 0, across);
    }
  }
}
