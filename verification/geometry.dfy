/** Integer rectangle arithmetic of the cover-zoom overlay. */
module Geometry {

  /** Size of a cover tile in pixels (`COVER_WIDTH`, `COVER_HEIGHT`). */
  const CoverWidth: nat := 200
  const CoverHeight: nat := 262

  /** `OVERLAY_GROW = 1.30`, kept as an exact percentage. */
  const GrowPercent: nat := 130

  datatype Point = Point(x: int, y: int)

  /** A rectangle given by its top-left corner and its size, like a `QRect`. */
  datatype Rect = Rect(x: int, y: int, w: int, h: int)

  /** `outer` covers every pixel of `inner`. */
  predicate Contains(outer: Rect, inner: Rect) {
    outer.x <= inner.x && inner.x + inner.w <= outer.x + outer.w &&
    outer.y <= inner.y && inner.y + inner.h <= outer.y + outer.h
  }

  /** `c` is the middle of `r` up to the one-pixel rounding of an integer centre. */
  predicate NearCentre(c: Point, r: Rect) {
    r.w - 2 <= 2 * (c.x - r.x) <= r.w &&
    r.h - 2 <= 2 * (c.y - r.y) <= r.h
  }

  /** `int(base * OVERLAY_GROW)`: the grown length, truncated to an integer. */
  function Grow(base: nat): (g: nat)
    ensures 100 * g <= GrowPercent * base < 100 * g + 100
    ensures base <= g
  {
    base * GrowPercent / 100
  }

  /**
   * The end rectangle of the zoom-in animation: the grown size, placed so
   * that `centre` (the button's centre) is its middle, rounding towards the
   * top-left when the grown size is odd.
   */
  function FinalRect(centre: Point, baseW: nat, baseH: nat): (r: Rect)
    ensures r.w == Grow(baseW) && r.h == Grow(baseH)
    ensures r.w - 1 <= 2 * (centre.x - r.x) <= r.w
    ensures r.h - 1 <= 2 * (centre.y - r.y) <= r.h
  {
    var w := Grow(baseW);
    var h := Grow(baseH);
    Rect(centre.x - w / 2, centre.y - h / 2, w, h)
  }

  /** The end rectangle for a cover-sized tile: 260 by 340 around the centre. */
  function CoverOverlay(centre: Point): (r: Rect)
    ensures r == Rect(centre.x - 130, centre.y - 170, 260, 340)
  {
    FinalRect(centre, CoverWidth, CoverHeight)
  }

  /**
   * The zoomed overlay hides the tile it enlarges: once the tile is at least
   * ten pixels each way, the grown rectangle around its centre covers it.
   */
  lemma FinalCoversButton(button: Rect, centre: Point)
    requires button.w >= 10 && button.h >= 10
    requires NearCentre(centre, button)
    ensures Contains(FinalRect(centre, button.w, button.h), button)
  {
  }
}
