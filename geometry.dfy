/**
 * The integer geometry of the effect modes: the values each `process_image`
 * variant gives a control, the N x N grid of GridSwitch and the depth widths
 * and size order of AppleTVLike.  Screen coordinates are those of a
 * 1280 x 720 skin; random draws are parameters within their ranges.
 * Python 2's `/` on ints floors: it is FloorDiv where the divisor is the
 * grid size read from the settings, and Dafny's `/` where it is a positive
 * constant.
 */
module Geometry {
  import opened Prelude
  import opened Dispatch

  const ScreenWidth: int := 1280
  const ScreenHeight: int := 720

  /** GridSwitchScreensaver.EFFECT_TIME, in milliseconds. */
  const GridEffectTime: int := 500

  /**
   * The animation effects the modes attach to a control, with the integer
   * values of their animation strings: opacity and zoom in percent, angles
   * in degrees, offsets in pixels, times in milliseconds.  A time the source
   * computes in floating point is absent (None, or no field at all).
   */
  datatype Effect =
    | Fade(fromOpacity: int, toOpacity: int, ms: int)
    | Rotate                                   // rotate to a float angle over a float time
    | Drop(fromPercent: int, toPercent: int)  // a zoom over a float time
    | Tilt(fromDegrees: int, toDegrees: int, ms: int)
    | Slide(fromY: int, toY: int, duration: Option<int>)
    | ZoomAt(fromPercent: int, toPercent: int, cx: int, cy: int, ms: int)

  /** A fade from transparent to opaque over ms milliseconds. */
  function FadeIn(ms: int): Effect
  {
    Fade(0, 100, ms)
  }

  /** A fade from opaque to transparent over ms milliseconds. */
  function FadeOut(ms: int): Effect
  {
    Fade(100, 0, ms)
  }

  /** An image control: its identity, position, size, image, visibility and current animations. */
  datatype Control = Control(id: nat, x: int, y: int, width: int, height: int,
                             image: string, visible: bool, effects: seq<Effect>)

  datatype Rect = Rect(x: int, y: int, w: int, h: int)

  function Extent(c: Control): Rect
  {
    Rect(c.x, c.y, c.width, c.height)
  }

  /** The two rectangles share some area. */
  predicate Overlap(a: Rect, b: Rect)
  {
    a.x < b.x + b.w && b.x < a.x + a.w && a.y < b.y + b.h && b.y < a.y + a.h
  }

  predicate OnScreen(r: Rect)
  {
    0 <= r.w && 0 <= r.h && 0 <= r.x && r.x + r.w <= ScreenWidth && 0 <= r.y && r.y + r.h <= ScreenHeight
  }

  /**
   * The height that `int(width / image_aspect_ratio)` gives with the ratio
   * 16/9, written with integers.
   */
  function AspectHeight(width: int): int
  {
    width * 9 / 16
  }

  /** The height is the largest whole number of pixels within 9/16 of the width. */
  lemma AspectHeightFloor(width: int)
    ensures var h := AspectHeight(width); 16 * h <= 9 * width < 16 * h + 16
  {
  }

  /** What one `process_image` call did: the control afterwards, the animations set in order, and its own sleep. */
  datatype Paint = Paint(control: Control, applied: seq<Effect>, sleepMs: int)

  /** The random values one render may draw (each mode reads its own). */
  datatype Draw = Draw(width: int, x: int, y: int, dropHeight: int, centre: int, zoomX: int, zoomY: int)

  // ---------------------------------------------------------------- GridSwitch

  /**
   * Where GridSwitch puts control i of its N x N grid: the floored quotient
   * and remainder of i by N give row and column, and the screen size floored
   * by N gives the cell size.  N is whatever integer the settings hold; only
   * N = 0 is never divided by, since that grid has no controls.
   */
  function GridTile(i: nat, n: int): Rect
    requires n != 0
  {
    Cell(FloorMod(i, n), FloorDiv(i, n), FloorDiv(ScreenWidth, n), FloorDiv(ScreenHeight, n))
  }

  /** For a positive grid size the floored quotient and remainder are Dafny's. */
  lemma GridTilePositive(i: nat, n: nat)
    requires 1 <= n
    ensures GridTile(i, n) == Cell(i % n, i / n, ScreenWidth / n, ScreenHeight / n)
  {
  }

  /** The cell in column col and row row of a grid of w x h cells. */
  function Cell(col: int, row: int, w: int, h: int): Rect
  {
    Rect(w * col, h * row, w, h)
  }

  /** With span cells of size s, cell k (k < n) lies inside [0, s * n]. */
  lemma CellInside(k: int, n: nat, total: int)
    requires 1 <= n && 0 <= k < n && 0 <= total
    ensures 0 <= (total / n) * k && (total / n) * k + total / n <= total
  {
    MulMono(0, k, total / n);
    MulMono(k + 1, n, total / n);
    assert (total / n) * k + total / n == (k + 1) * (total / n);
  }

  /** Cells k < l of one row (or column) do not meet. */
  lemma CellsApart(k: int, l: int, s: int)
    requires 0 <= k < l && 0 <= s
    ensures s * k + s <= s * l
  {
    MulMono(k + 1, l, s);
  }

  /** Every tile of the grid lies on the screen. */
  lemma GridTileOnScreen(i: nat, n: nat)
    requires 1 <= n && i < n * n
    ensures OnScreen(GridTile(i, n))
  {
    GridTilePositive(i, n);
    assert i / n < n by {
      if i / n >= n {
        MulMono(n, i / n, n);
      }
    }
    CellInside(i % n, n, ScreenWidth);
    CellInside(i / n, n, ScreenHeight);
  }

  /** Distinct indices differ in row or in column. */
  lemma CoordsDiffer(i: nat, j: nat, n: nat)
    requires 1 <= n && i != j
    ensures i % n != j % n || i / n != j / n
  {
    assert i == (i / n) * n + i % n && j == (j / n) * n + j % n;
  }

  /** Two cells of a w x h grid at different (column, row) never overlap. */
  lemma CellsDisjoint(ci: int, ri: int, cj: int, rj: int, w: int, h: int)
    requires 0 <= ci && 0 <= ri && 0 <= cj && 0 <= rj && 0 <= w && 0 <= h
    requires ci != cj || ri != rj
    ensures !Overlap(Cell(ci, ri, w, h), Cell(cj, rj, w, h))
  {
    if ci < cj {
      CellsApart(ci, cj, w);
    } else if cj < ci {
      CellsApart(cj, ci, w);
    } else if ri < rj {
      CellsApart(ri, rj, h);
    } else {
      CellsApart(rj, ri, h);
    }
  }

  /** Distinct tiles of the grid never overlap. */
  lemma GridTilesDisjoint(i: nat, j: nat, n: nat)
    requires 1 <= n && i != j
    ensures !Overlap(GridTile(i, n), GridTile(j, n))
  {
    GridTilePositive(i, n);
    GridTilePositive(j, n);
    CoordsDiffer(i, j, n);
    DivNonneg(i, n);
    DivNonneg(j, n);
    DivNonneg(ScreenWidth, n);
    DivNonneg(ScreenHeight, n);
    CellsDisjoint(i % n, i / n, j % n, j / n, ScreenWidth / n, ScreenHeight / n);
  }

  /**
   * A negative grid size (which the setting's integer parse lets through)
   * gives every tile a negative width and height at a non-negative position:
   * no such tile is on the screen.
   */
  lemma GridTileNegative(i: nat, n: int)
    requires n < 0
    ensures var t := GridTile(i, n);
      t.w < 0 && t.h < 0 && 0 <= t.x && 0 <= t.y && !OnScreen(t)
  {
    var w, h := FloorDiv(ScreenWidth, n), FloorDiv(ScreenHeight, n);
    var col, row := FloorMod(i, n), FloorDiv(i, n);
    if w >= 0 { MulMono(0, w, -n); }
    if h >= 0 { MulMono(0, h, -n); }
    if row > 0 { MulMono(1, row, -n); }
    MulMono(col, 0, -w);
    MulMono(row, 0, -h);
  }

  /** GridSwitch's `stack_cycle_controls` loop: control i gets the position and size of tile i. */
  function GridLayout(controls: seq<Control>, n: int): (r: seq<Control>)
    requires n != 0 || controls == []
    ensures |r| == |controls|
  {
    seq(|controls|, i requires 0 <= i < |controls| =>
      var t := GridTile(i, n);
      controls[i].(x := t.x, y := t.y, width := t.w, height := t.h))
  }

  /** With a negative grid size no control of the layout is on the screen. */
  lemma GridLayoutNegative(controls: seq<Control>, n: int)
    requires n < 0
    ensures var r := GridLayout(controls, n);
      forall i :: 0 <= i < |r| ==> !OnScreen(Extent(r[i])) && r[i].id == controls[i].id
  {
    var r := GridLayout(controls, n);
    forall i | 0 <= i < |r| ensures !OnScreen(Extent(r[i])) {
      GridTileNegative(i, n);
    }
  }

  /**
   * The grid layout of N * N controls puts every control on the screen, no
   * two of them overlapping, and changes nothing but their position and size.
   */
  lemma GridLayoutTiles(controls: seq<Control>, n: nat)
    requires 1 <= n && |controls| <= n * n
    ensures var r := GridLayout(controls, n);
      (forall i :: 0 <= i < |r| ==>
         OnScreen(Extent(r[i])) && r[i].id == controls[i].id &&
         r[i].image == controls[i].image && r[i].visible == controls[i].visible) &&
      (forall i, j :: 0 <= i < j < |r| ==> !Overlap(Extent(r[i]), Extent(r[j])))
  {
    var r := GridLayout(controls, n);
    forall i | 0 <= i < |r| ensures OnScreen(Extent(r[i])) {
      GridTileOnScreen(i, n);
    }
    forall i, j | 0 <= i < j < |r| ensures !Overlap(Extent(r[i]), Extent(r[j])) {
      GridTilesDisjoint(i, j, n);
    }
  }

  /**
   * GridSwitch's `process_image`: once `image_count` has reached
   * FAST_IMAGE_COUNT it fades the old image out and sleeps EFFECT_TIME; in
   * every case it sets the new image and fades it in.
   */
  function GridPaint(c: Control, url: string, imageCount: int, fastImageCount: int): (p: Paint)
    ensures (FadeOut(GridEffectTime) in p.applied) <==> imageCount >= fastImageCount
    ensures p.applied != [] && p.applied[|p.applied| - 1] == FadeIn(GridEffectTime)
    ensures p.sleepMs == if imageCount < fastImageCount then 0 else GridEffectTime
    ensures p.control.image == url && p.control.effects == [FadeIn(GridEffectTime)]
    ensures Extent(p.control) == Extent(c) && p.control.id == c.id && p.control.visible == c.visible
  {
    if imageCount < fastImageCount then
      Paint(c.(image := url, effects := [FadeIn(GridEffectTime)]), [FadeIn(GridEffectTime)], 0)
    else
      Paint(c.(image := url, effects := [FadeIn(GridEffectTime)]),
            [FadeOut(GridEffectTime), FadeIn(GridEffectTime)], GridEffectTime)
  }

  // ---------------------------------------------------------------- AppleTVLike

  /**
   * `width = 1280 / 100 * zoom` with `zoom = int(betavariate(2, 2) * 40) + 10`;
   * `draw` is the integer `int(b * 40)` for the drawn b in [0, 1].
   */
  function DepthWidth(draw: nat): (w: int)
    requires draw <= 40
    ensures w == 12 * (draw + 10)
    ensures 120 <= w <= 600 && w % 2 == 0
  {
    var zoom := draw + 10;
    (ScreenWidth / 100) * zoom
  }

  /** AppleTVLike's first loop: every control gets the width of its own depth draw. */
  function DepthWidths(controls: seq<Control>, draws: seq<nat>): (r: seq<Control>)
    requires |draws| == |controls| && forall k :: 0 <= k < |draws| ==> draws[k] <= 40
    ensures |r| == |controls|
    ensures forall k :: 0 <= k < |r| ==> r[k].(width := controls[k].width) == controls[k]
    ensures forall k :: 0 <= k < |r| ==> r[k].width == 12 * (draws[k] + 10)
    ensures forall k :: 0 <= k < |r| ==> 120 <= r[k].width <= 600 && r[k].width % 12 == 0
  {
    seq(|controls|, k requires 0 <= k < |controls| => controls[k].(width := DepthWidth(draws[k])))
  }

  predicate SortedByWidth(s: seq<Control>)
  {
    forall i, j :: 0 <= i < j < |s| ==> s[i].width <= s[j].width
  }

  /** Insert c behind every control at most as wide (so equal widths keep their order). */
  function InsertByWidth(c: Control, s: seq<Control>): (r: seq<Control>)
    ensures |r| == |s| + 1
  {
    if s == [] then [c]
    else if c.width < s[0].width then [c] + s
    else [s[0]] + InsertByWidth(c, s[1..])
  }

  /** Insertion adds exactly c. */
  lemma {:induction false} InsertByWidthAdds(c: Control, s: seq<Control>)
    ensures multiset(InsertByWidth(c, s)) == multiset(s) + multiset{c}
  {
    if s != [] && c.width >= s[0].width {
      InsertByWidthAdds(c, s[1..]);
      assert s == [s[0]] + s[1..];
    }
  }

  /** Insertion into a list sorted by width keeps it sorted, and the first width is s[0]'s or c's. */
  lemma {:induction false} InsertByWidthSorted(c: Control, s: seq<Control>)
    requires SortedByWidth(s)
    ensures SortedByWidth(InsertByWidth(c, s))
    ensures InsertByWidth(c, s)[0] == if s != [] && c.width >= s[0].width then s[0] else c
  {
    if s != [] && c.width >= s[0].width {
      var t := InsertByWidth(c, s[1..]);
      InsertByWidthSorted(c, s[1..]);
      var r := [s[0]] + t;
      forall i, j | 0 <= i < j < |r| ensures r[i].width <= r[j].width {
        if i == 0 {
          if j == 1 {
            assert t[0] == c || t[0] == s[1];
          } else {
            assert r[1].width <= r[j].width;
            assert t[0] == c || t[0] == s[1];
          }
        }
      }
    }
  }

  /** The controls in ascending width order, equal widths in their input order (a stable sort). */
  function SortByWidth(s: seq<Control>): (r: seq<Control>)
    ensures |r| == |s|
  {
    if s == [] then [] else InsertByWidth(s[|s| - 1], SortByWidth(s[..|s| - 1]))
  }

  /** The sorted list is a permutation of the input, ascending by width. */
  lemma {:induction false} SortByWidthSpec(s: seq<Control>)
    ensures multiset(SortByWidth(s)) == multiset(s)
    ensures SortedByWidth(SortByWidth(s))
  {
    if s != [] {
      var init := s[..|s| - 1];
      assert s == init + [s[|s| - 1]];
      SortByWidthSpec(init);
      InsertByWidthAdds(s[|s| - 1], SortByWidth(init));
      InsertByWidthSorted(s[|s| - 1], SortByWidth(init));
    }
  }

  /**
   * AppleTVLike's `process_image`: the width set at start-up stays, the drawn
   * `center` in [0, 1280] becomes the image's horizontal centre, y is 0.
   */
  function AppleTVPaint(c: Control, url: string, centre: int): (p: Paint)
    requires 0 <= centre <= ScreenWidth
    ensures p.control.width == c.width && p.control.y == 0 && p.control.id == c.id
    ensures p.control.image == url && p.control.visible && p.control.effects == [Slide(720, -720, None)]
    ensures c.width % 2 == 0 ==> p.control.x + p.control.width / 2 == centre
    ensures 0 <= c.width ==> p.control.x <= ScreenWidth && 0 <= p.control.x + p.control.width
  {
    var width := c.width;
    var x := centre - width / 2;
    Paint(c.(x := x, y := 0, height := AspectHeight(width), image := url, visible := true, effects := [Slide(720, -720, None)]),
          [Slide(720, -720, None)], 0)
  }

  // ---------------------------------------------------------------- TableDrop, StarWars, RandomZoomIn

  /** The ranges of TableDrop's draws: `randint(500, 700)`, `randint(0, 1280 - width)`, `randint(0, 720 - height)`, `randint(400, 800)`. */
  predicate TableDropFits(d: Draw)
  {
    500 <= d.width <= 700 && 0 <= d.x <= ScreenWidth - d.width &&
    0 <= d.y <= ScreenHeight - AspectHeight(d.width) && 400 <= d.dropHeight <= 800
  }

  /** TableDrop's `process_image`: a photo of 500 to 700 pixels width that lies wholly on the table. */
  function TableDropPaint(c: Control, url: string, d: Draw): (p: Paint)
    requires TableDropFits(d)
    ensures OnScreen(Extent(p.control)) && 500 <= p.control.width <= 700
    ensures p.control.height == AspectHeight(p.control.width) && 280 <= p.control.height <= 393
    ensures p.control.image == url && p.control.visible && p.control.id == c.id
  {
    var effects := [FadeIn(200), Rotate, Drop(d.dropHeight, 100)];
    Paint(c.(x := d.x, y := d.y, width := d.width, height := AspectHeight(d.width),
             image := url, visible := true, effects := effects), effects, 0)
  }

  /** StarWars' `process_image`: a full-size image placed at (0, 510), tilted and slid upwards. */
  function StarWarsPaint(c: Control, url: string): (p: Paint)
    ensures Extent(p.control) == Rect(0, 510, ScreenWidth, ScreenHeight)
    ensures p.control.image == url && p.control.visible && p.control.id == c.id
    ensures p.control.effects == [Tilt(0, 50, 0), Slide(1100, -1100, Some(10400))]
  {
    var effects := [Tilt(0, 50, 0), Slide(1100, -1100, Some(10400))];
    Paint(c.(x := 0, y := 510, width := ScreenWidth, height := ScreenHeight,
             image := url, visible := true, effects := effects), effects, 0)
  }

  /** RandomZoomIn's `process_image`: full screen, zooming in from the drawn point for EFFECT_TIME. */
  function ZoomPaint(c: Control, url: string, zoomX: int, zoomY: int, effectTime: int): (p: Paint)
    requires 0 <= zoomX <= ScreenWidth && 0 <= zoomY <= ScreenHeight
    ensures Extent(p.control) == Rect(0, 0, ScreenWidth, ScreenHeight) && OnScreen(Extent(p.control))
    ensures p.control.effects == [ZoomAt(1, 100, zoomX, zoomY, effectTime)]
    ensures p.control.image == url && p.control.visible && p.control.id == c.id
  {
    var effects := [ZoomAt(1, 100, zoomX, zoomY, effectTime)];
    Paint(c.(x := 0, y := 0, width := ScreenWidth, height := ScreenHeight,
             image := url, visible := true, effects := effects), effects, 0)
  }

  // ---------------------------------------------------------------- one render, by mode

  /** The draws a render of this mode needs are within their ranges. */
  predicate DrawFits(mode: Mode, d: Draw)
  {
    match mode
    case TableDrop => TableDropFits(d)
    case AppleTVLike => 0 <= d.centre <= ScreenWidth
    case RandomZoomIn => 0 <= d.zoomX <= ScreenWidth && 0 <= d.zoomY <= ScreenHeight
    case _ => true
  }

  /** The modes whose `process_image` removes and re-adds the control so that it is stacked on top. */
  predicate Restacks(mode: Mode)
  {
    mode == TableDrop || mode == StarWars || mode == RandomZoomIn
  }

  /** `process_image` of the given mode. */
  function Render(mode: Mode, c: Control, url: string, imageCount: int, fastImageCount: int,
                  effectTime: int, d: Draw): (p: Paint)
    requires DrawFits(mode, d)
    ensures p.control.id == c.id && p.control.image == url
    ensures mode != GridSwitch ==> p.control.visible && p.sleepMs == 0
  {
    match mode
    case TableDrop => TableDropPaint(c, url, d)
    case StarWars => StarWarsPaint(c, url)
    case RandomZoomIn => ZoomPaint(c, url, d.zoomX, d.zoomY, effectTime)
    case AppleTVLike => AppleTVPaint(c, url, d.centre)
    case GridSwitch => GridPaint(c, url, imageCount, fastImageCount)
  }
}
