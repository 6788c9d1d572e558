/**
 * The two binary maps a template channel is built from
 * (`create_minutiae_map` and `create_orientation_map`): minutia positions
 * scaled from the original image size to the target size, truncated toward
 * zero, and written as 255 into a map of zeros.
 *
 * The orientation segments come from `skimage.draw.line_nd` and trigonometry;
 * they are a parameter here (`Draw`), and only what the source does with them
 * (keep the in-bounds samples, skip a point whose drawing raises) is modelled.
 */
module PointFields {
  import opened Wrappers

  /** A (height, width) pair. */
  datatype Size = Size(h: int, w: int)

  /** One row of the minutiae table: type, x, y and orientation in radians. */
  datatype Point = Point(kind: real, x: real, y: real, angle: real)

  /**
   * `line_nd((y0, x0), endpoint)` for a segment starting at (y0, x0) with the
   * given angle and length: its (row, column) samples, or None when it raises.
   */
  type Draw = (int, int, real, int) -> Option<seq<(int, int)>>

  /** Both sizes usable for scaling: the original has no zero side and the target is not empty. */
  predicate Scalable(orig: Size, target: Size) {
    orig.h != 0 && orig.w != 0 && target.h > 0 && target.w > 0
  }

  // ---------------------------------------------------------------------------
  // scaling

  /** `int(v)` and `astype(np.int32)`: truncation toward zero. */
  function Trunc(v: real): int {
    if v >= 0.0 then v.Floor else -((-v).Floor)
  }

  /** Truncation moves toward zero by less than one, and keeps whole numbers. */
  lemma TruncTowardZero(v: real)
    ensures 0.0 <= v ==> 0 <= Trunc(v) && Trunc(v) as real <= v < Trunc(v) as real + 1.0
    ensures v < 0.0 ==> Trunc(v) <= 0 && Trunc(v) as real - 1.0 < v <= Trunc(v) as real
    ensures Trunc(v.Floor as real) == v.Floor
  {
  }

  /** `np.clip(v, lo, hi)` for `lo <= hi`. */
  function Clip(v: int, lo: int, hi: int): int
    requires lo <= hi
  {
    if v < lo then lo else if v > hi then hi else v
  }

  /** `target / orig` for one side. */
  function Scale(target: int, orig: int): real
    requires orig != 0
  {
    target as real / orig as real
  }

  /** A side scaled to itself keeps its coordinates. */
  lemma ScaleOne(n: int, v: real)
    requires n != 0
    ensures v * Scale(n, n) == v
  {
    var x := n as real;
    assert x != 0.0;
    assert x / x == 1.0;
  }

  /** The map pixel (row, column) a point marks: scaled, truncated and clipped into the target. */
  function PixelOf(p: Point, orig: Size, target: Size): (px: (int, int))
    requires Scalable(orig, target)
    ensures 0 <= px.0 < target.h && 0 <= px.1 < target.w
  {
    (Clip(Trunc(p.y * Scale(target.h, orig.h)), 0, target.h - 1),
     Clip(Trunc(p.x * Scale(target.w, orig.w)), 0, target.w - 1))
  }

  /** A point already inside the target, with the original size equal to the target, marks its own truncated position. */
  lemma PixelOfSameSize(p: Point, size: Size)
    requires Scalable(size, size)
    requires 0.0 <= p.y < size.h as real && 0.0 <= p.x < size.w as real
    ensures PixelOf(p, size, size) == (p.y.Floor, p.x.Floor)
  {
    ScaleOne(size.h, p.y);
    ScaleOne(size.w, p.x);
  }

  /** Whether a (row, column) pair indexes the target. */
  predicate InBounds(px: (int, int), target: Size) {
    0 <= px.0 < target.h && 0 <= px.1 < target.w
  }

  // ---------------------------------------------------------------------------
  // the position map

  /** The pixels the points mark. */
  function MarkedPixels(points: seq<Point>, orig: Size, target: Size): set<(int, int)>
    requires points == [] || Scalable(orig, target)
  {
    if points == [] then {}
    else MarkedPixels(points[..|points| - 1], orig, target) + {PixelOf(points[|points| - 1], orig, target)}
  }

  /** A pixel is marked exactly when some point maps onto it, and every marked pixel is in bounds. */
  lemma {:induction false} MarkedPixelsSpec(points: seq<Point>, orig: Size, target: Size, px: (int, int))
    requires points == [] || Scalable(orig, target)
    ensures px in MarkedPixels(points, orig, target) <==>
            exists i :: 0 <= i < |points| && PixelOf(points[i], orig, target) == px
    ensures px in MarkedPixels(points, orig, target) ==> InBounds(px, target)
    decreases |points|
  {
    if points != [] {
      var init := points[..|points| - 1];
      MarkedPixelsSpec(init, orig, target, px);
      if px in MarkedPixels(init, orig, target) {
        var i :| 0 <= i < |init| && PixelOf(init[i], orig, target) == px;
        assert points[i] == init[i];
      }
      if exists i :: 0 <= i < |points| && PixelOf(points[i], orig, target) == px {
        var i :| 0 <= i < |points| && PixelOf(points[i], orig, target) == px;
        if i < |init| {
          assert init[i] == points[i];
        }
      }
    }
  }

  /**
   * `create_minutiae_map`: a target-sized map holding 255 at every marked pixel
   * and 0 everywhere else; all zero when there are no points.
   */
  method CreateMinutiaeMap(points: seq<Point>, orig: Size, target: Size) returns (m: array2<int>)
    requires target.h >= 0 && target.w >= 0
    requires points == [] || Scalable(orig, target)
    ensures m.Length0 == target.h && m.Length1 == target.w
    ensures forall r, c :: 0 <= r < m.Length0 && 0 <= c < m.Length1 ==>
              m[r, c] == (if (r, c) in MarkedPixels(points, orig, target) then 255 else 0)
  {
    m := new int[target.h, target.w]((r, c) => 0);
    if points == [] {
      return;
    }
    for i := 0 to |points|
      invariant forall r, c :: 0 <= r < m.Length0 && 0 <= c < m.Length1 ==>
                  m[r, c] == (if (r, c) in MarkedPixels(points[..i], orig, target) then 255 else 0)
    {
      assert points[..i + 1][..i] == points[..i];
      var px := PixelOf(points[i], orig, target);
      m[px.0, px.1] := 255;
    }
    assert points[..|points|] == points;
  }

  // ---------------------------------------------------------------------------
  // the orientation map

  /** `int(line_length * scale_x)`. */
  function SegmentLength(lineLength: int, orig: Size, target: Size): int
    requires orig.w != 0
  {
    Trunc(lineLength as real * Scale(target.w, orig.w))
  }

  /** The unclipped start (row, column) of a point's segment. */
  function SegmentStart(p: Point, orig: Size, target: Size): (int, int)
    requires orig.h != 0 && orig.w != 0
  {
    (Trunc(p.y * Scale(target.h, orig.h)), Trunc(p.x * Scale(target.w, orig.w)))
  }

  /** The samples of a sequence that index the target. */
  function InBoundsSamples(samples: seq<(int, int)>, target: Size): set<(int, int)> {
    if samples == [] then {}
    else
      InBoundsSamples(samples[..|samples| - 1], target)
      + (if InBounds(samples[|samples| - 1], target) then {samples[|samples| - 1]} else {})
  }

  /** Exactly the samples inside the target are kept. */
  lemma {:induction false} InBoundsSamplesSpec(samples: seq<(int, int)>, target: Size, px: (int, int))
    ensures px in InBoundsSamples(samples, target) <==> px in samples && InBounds(px, target)
    decreases |samples|
  {
    if samples != [] {
      var init := samples[..|samples| - 1];
      InBoundsSamplesSpec(init, target, px);
      assert samples == init + [samples[|samples| - 1]];
    }
  }

  /** The pixels one point's segment sets: none when drawing raises. */
  function SegmentPixels(p: Point, orig: Size, target: Size, lineLength: int, draw: Draw): set<(int, int)>
    requires orig.h != 0 && orig.w != 0
  {
    var start := SegmentStart(p, orig, target);
    match draw(start.0, start.1, p.angle, SegmentLength(lineLength, orig, target))
    case None => {}
    case Some(samples) => InBoundsSamples(samples, target)
  }

  /** The pixels the orientation map sets. */
  function OrientationPixels(points: seq<Point>, orig: Size, target: Size, lineLength: int, draw: Draw): set<(int, int)>
    requires points == [] || (orig.h != 0 && orig.w != 0)
  {
    if points == [] then {}
    else
      OrientationPixels(points[..|points| - 1], orig, target, lineLength, draw)
      + SegmentPixels(points[|points| - 1], orig, target, lineLength, draw)
  }

  /** Every pixel of the orientation map's segments lies inside the target. */
  lemma {:induction false} OrientationPixelsInBounds(points: seq<Point>, orig: Size, target: Size,
                                                     lineLength: int, draw: Draw, px: (int, int))
    requires points == [] || (orig.h != 0 && orig.w != 0)
    requires px in OrientationPixels(points, orig, target, lineLength, draw)
    ensures InBounds(px, target)
    decreases |points|
  {
    var init, p := points[..|points| - 1], points[|points| - 1];
    if px in OrientationPixels(init, orig, target, lineLength, draw) {
      OrientationPixelsInBounds(init, orig, target, lineLength, draw, px);
    } else {
      var start := SegmentStart(p, orig, target);
      var samples := draw(start.0, start.1, p.angle, SegmentLength(lineLength, orig, target)).value;
      InBoundsSamplesSpec(samples, target, px);
    }
  }

  /** The segments of two runs of points add up: each point draws independently of the others. */
  lemma {:induction false} OrientationPixelsAppend(ps: seq<Point>, qs: seq<Point>, orig: Size, target: Size,
                                                   lineLength: int, draw: Draw)
    requires orig.h != 0 && orig.w != 0
    ensures OrientationPixels(ps + qs, orig, target, lineLength, draw)
         == OrientationPixels(ps, orig, target, lineLength, draw) + OrientationPixels(qs, orig, target, lineLength, draw)
    decreases |qs|
  {
    if qs == [] {
      assert ps + qs == ps;
    } else {
      var init := qs[..|qs| - 1];
      OrientationPixelsAppend(ps, init, orig, target, lineLength, draw);
      assert (ps + qs)[..|ps + qs| - 1] == ps + init;
    }
  }

  /** A point whose drawing raises is skipped: the map is what the other points draw. */
  lemma FailingPointSkipped(ps: seq<Point>, p: Point, qs: seq<Point>, orig: Size, target: Size,
                            lineLength: int, draw: Draw)
    requires orig.h != 0 && orig.w != 0
    requires var start := SegmentStart(p, orig, target);
             draw(start.0, start.1, p.angle, SegmentLength(lineLength, orig, target)).None?
    ensures OrientationPixels(ps + [p] + qs, orig, target, lineLength, draw)
         == OrientationPixels(ps + qs, orig, target, lineLength, draw)
  {
    OrientationPixelsAppend(ps + [p], qs, orig, target, lineLength, draw);
    OrientationPixelsAppend(ps, [p], orig, target, lineLength, draw);
    OrientationPixelsAppend(ps, qs, orig, target, lineLength, draw);
    assert [p][..0] == [];
  }

  /**
   * `create_orientation_map`: a target-sized map holding 255 at every in-bounds
   * sample of every point's segment and 0 everywhere else; all zero when there
   * are no points.
   */
  method CreateOrientationMap(points: seq<Point>, orig: Size, target: Size, lineLength: int, draw: Draw)
    returns (m: array2<int>)
    requires target.h >= 0 && target.w >= 0
    requires points == [] || (orig.h != 0 && orig.w != 0)
    ensures m.Length0 == target.h && m.Length1 == target.w
    ensures forall r, c :: 0 <= r < m.Length0 && 0 <= c < m.Length1 ==>
              m[r, c] == (if (r, c) in OrientationPixels(points, orig, target, lineLength, draw) then 255 else 0)
  {
    m := new int[target.h, target.w]((r, c) => 0);
    if points == [] {
      return;
    }
    var segmentLength := SegmentLength(lineLength, orig, target);
    for i := 0 to |points|
      invariant forall r, c :: 0 <= r < m.Length0 && 0 <= c < m.Length1 ==>
                  m[r, c] == (if (r, c) in OrientationPixels(points[..i], orig, target, lineLength, draw) then 255 else 0)
    {
      assert points[..i + 1][..i] == points[..i];
      var p := points[i];
      var start := SegmentStart(p, orig, target);
      var drawn := draw(start.0, start.1, p.angle, segmentLength);
      if drawn.Some? {
        DrawInBounds(m, drawn.value, target, OrientationPixels(points[..i], orig, target, lineLength, draw));
      }
    }
    assert points[..|points|] == points;
  }

  /** `orientation_map[rows[valid], cols[valid]] = 255` for one segment. */
  method DrawInBounds(m: array2<int>, samples: seq<(int, int)>, target: Size, ghost before: set<(int, int)>)
    requires m.Length0 == target.h && m.Length1 == target.w
    requires forall r, c :: 0 <= r < m.Length0 && 0 <= c < m.Length1 ==>
               m[r, c] == (if (r, c) in before then 255 else 0)
    modifies m
    ensures forall r, c :: 0 <= r < m.Length0 && 0 <= c < m.Length1 ==>
              m[r, c] == (if (r, c) in before + InBoundsSamples(samples, target) then 255 else 0)
  {
    for j := 0 to |samples|
      invariant forall r, c :: 0 <= r < m.Length0 && 0 <= c < m.Length1 ==>
                  m[r, c] == (if (r, c) in before + InBoundsSamples(samples[..j], target) then 255 else 0)
    {
      assert samples[..j + 1][..j] == samples[..j];
      var s := samples[j];
      if InBounds(s, target) {
        m[s.0, s.1] := 255;
      }
    }
    assert samples[..|samples|] == samples;
  }
}
