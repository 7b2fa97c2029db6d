/** Pixel-space helpers of the game (main.js:346-358, 1052-1054). */
module Geometry {
  import opened Tiles

  /** An axis-aligned rectangle in pixels: corner, width and height. */
  datatype Rect = Rect(x: real, y: real, w: real, h: real)

  /** Strict overlap of two rectangles; touching edges do not overlap. */
  predicate RectsOverlap(a: Rect, b: Rect) {
    a.x < b.x + b.w && a.x + a.w > b.x && a.y < b.y + b.h && a.y + a.h > b.y
  }

  /** Overlap does not depend on the order of the two rectangles, and a rectangle of positive size overlaps itself. */
  lemma OverlapLaws(a: Rect, b: Rect)
    ensures RectsOverlap(a, b) <==> RectsOverlap(b, a)
    ensures a.w > 0.0 && a.h > 0.0 ==> RectsOverlap(a, a)
  {
  }

  /** `Math.max(lo, Math.min(hi, v))`. */
  function Clamp(v: int, lo: int, hi: int): (r: int)
    ensures lo <= r
    ensures lo <= hi ==> r <= hi
    ensures lo <= v <= hi ==> r == v
    ensures v < lo ==> r == lo
    ensures lo <= hi < v ==> r == hi
  {
    var m := if v < hi then v else hi;
    if lo > m then lo else m
  }

  /** The tile column (or row) holding a pixel coordinate: `Math.floor(p / TILE_SIZE)`. */
  function TileIndex(p: real): (r: int)
    ensures (r * TileSize) as real <= p < ((r + 1) * TileSize) as real
  {
    (p / TileSize as real).Floor
  }
}
