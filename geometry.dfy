/**
  Rectangles and the alignment formulas of `SikuliXRegion.region_set_rect`:
  a w x h rectangle placed against a W x H screen by one of five modes, shifted
  by (dx, dy), or at the caller's (x, y) when no mode (or an unknown one) is given.
 */
module Geometry {
  import opened Wrappers

  /** An engine region or match: upper-left corner and size. */
  datatype Rect = Rect(x: int, y: int, w: int, h: int)

  predicate KnownMode(mode: string)
  {
    mode in {"left-upper", "right-upper", "left-lower", "right-lower", "center"}
  }

  /**
    The upper-left corner `region_set_rect` computes. Python's `//` floors; Dafny's `/`
    with divisor 2 is Euclidean, which is the same floor for negative dividends too.
   */
  function AlignedOrigin(mode: Option<string>, x: int, y: int, w: int, h: int, dx: int, dy: int, screenW: int, screenH: int): (o: (int, int))
    ensures mode.None? || !KnownMode(mode.value) ==> o == (x, y)
    ensures mode == Some("center") ==> 2 * (o.0 - dx) <= screenW - w < 2 * (o.0 - dx) + 2
    ensures mode == Some("center") ==> 2 * (o.1 - dy) <= screenH - h < 2 * (o.1 - dy) + 2
    ensures mode == Some("right-upper") || mode == Some("right-lower") ==> o.0 + w == screenW + dx
    ensures mode == Some("left-lower") || mode == Some("right-lower") ==> o.1 + h == screenH + dy
  {
    if mode == Some("left-upper") then (dx, dy)
    else if mode == Some("right-upper") then (screenW - w + dx, dy)
    else if mode == Some("left-lower") then (dx, screenH - h + dy)
    else if mode == Some("right-lower") then (screenW - w + dx, screenH - h + dy)
    else if mode == Some("center") then ((screenW - w) / 2 + dx, (screenH - h) / 2 + dy)
    else (x, y)
  }

  /** The rectangle `region_set_rect` sets and records as the user-defined one. */
  function AlignedRect(mode: Option<string>, x: int, y: int, w: int, h: int, dx: int, dy: int, screenW: int, screenH: int): (r: Rect)
    ensures r.w == w && r.h == h
    ensures (r.x, r.y) == AlignedOrigin(mode, x, y, w, h, dx, dy, screenW, screenH)
  {
    var o := AlignedOrigin(mode, x, y, w, h, dx, dy, screenW, screenH);
    Rect(o.0, o.1, w, h)
  }

  /** Left and right modes put the corresponding edge of the rectangle on the screen's edge, then shift by dx. */
  lemma HorizontalAlignment(mode: string, x: int, y: int, w: int, h: int, dx: int, dy: int, screenW: int, screenH: int)
    ensures var o := AlignedOrigin(Some(mode), x, y, w, h, dx, dy, screenW, screenH);
      && (mode in {"left-upper", "left-lower"} ==> o.0 == dx)
      && (mode in {"right-upper", "right-lower"} ==> o.0 + w == screenW + dx)
  {
  }

  /** Upper and lower modes put the corresponding edge of the rectangle on the screen's edge, then shift by dy. */
  lemma VerticalAlignment(mode: string, x: int, y: int, w: int, h: int, dx: int, dy: int, screenW: int, screenH: int)
    ensures var o := AlignedOrigin(Some(mode), x, y, w, h, dx, dy, screenW, screenH);
      && (mode in {"left-upper", "right-upper"} ==> o.1 == dy)
      && (mode in {"left-lower", "right-lower"} ==> o.1 + h == screenH + dy)
  {
  }

  /**
    Centre mode leaves margins that differ by at most one pixel, the extra pixel on the
    right (bottom): the left margin is the floor of half the free space, even when the
    rectangle is larger than the screen.
   */
  lemma CenterAlignment(x: int, y: int, w: int, h: int, dx: int, dy: int, screenW: int, screenH: int)
    ensures var o := AlignedOrigin(Some("center"), x, y, w, h, dx, dy, screenW, screenH);
      var left, top := o.0 - dx, o.1 - dy;
      && 2 * left <= screenW - w < 2 * left + 2
      && 2 * top <= screenH - h < 2 * top + 2
  {
  }

  /** No mode, or a mode the source does not know, keeps the caller's corner. */
  lemma UnalignedKeepsCorner(mode: Option<string>, x: int, y: int, w: int, h: int, dx: int, dy: int, screenW: int, screenH: int)
    requires mode.None? || !KnownMode(mode.value)
    ensures AlignedOrigin(mode, x, y, w, h, dx, dy, screenW, screenH) == (x, y)
  {
  }

  lemma ExampleCenter()
    ensures AlignedOrigin(Some("center"), 0, 0, 800, 600, 0, 0, 1920, 1080) == (560, 240)
  {
  }
}
