/** Placement test (the middle of `run_ai_logic`): the box centre, the
    centred band of ±15% around the frame midpoint, and the standard-plane
    predicate that combines confidence, centring and the calibration verdict. */
module Placement {
  import opened Detection

  /** A box counts as confident enough for a standard plane above this. */
  const StandardConfidence: real := 0.6
  /** Half-width of the centred band, as a fraction of the frame dimension. */
  const CenterMargin: real := 0.15

  datatype Point = Point(x: int, y: int)

  datatype PlacementVerdict = PlacementVerdict(isStandard: bool, center: Point, boxWidth: int, boxHeight: int)

  /** Half of `n`, rounded towards minus infinity (the source's `n // 2`). */
  function FloorHalf(n: int): (h: int)
    ensures 2 * h <= n < 2 * h + 2
  {
    n / 2
  }

  /** The box centre: each corner coordinate plus half the extent, floored. */
  function Center(b: Box): (p: Point)
    ensures 2 * (p.x - b.x1) <= b.x2 - b.x1 < 2 * (p.x - b.x1) + 2
    ensures 2 * (p.y - b.y1) <= b.y2 - b.y1 < 2 * (p.y - b.y1) + 2
  {
    Point(b.x1 + FloorHalf(b.x2 - b.x1), b.y1 + FloorHalf(b.y2 - b.y1))
  }

  /** `c` lies strictly inside the open band (size/2 - 0.15 size, size/2 + 0.15 size). */
  predicate InBand(c: int, size: int): (b: bool)
    ensures b <==> 7 * size < 20 * c < 13 * size
  {
    var mid := size as real / 2.0;
    var margin := size as real * CenterMargin;
    mid - margin < c as real < mid + margin
  }

  /** Both coordinates lie in their bands; a centred point is strictly
      inside the frame. */
  predicate IsCentered(p: Point, width: int, height: int): (b: bool)
    ensures b <==> 7 * width < 20 * p.x < 13 * width && 7 * height < 20 * p.y < 13 * height
    ensures b ==> 0 < p.x < width && 0 < p.y < height
  {
    InBand(p.x, width) && InBand(p.y, height)
  }

  function Abs(n: int): nat
  {
    if n < 0 then -n else n
  }

  /** Integer reference form of the band: twice the distance from the
      midpoint is below 30% of the dimension. */
  lemma InBandIffInteger(c: int, size: int)
    ensures InBand(c, size) <==> 10 * Abs(2 * c - size) < 3 * size
  {
    var d := 2 * c - size;
    assert InBand(c, size) <==> -(size as real) * 0.3 < d as real < size as real * 0.3;
    if d < 0 {
      assert InBand(c, size) <==> 10 * (-d) < 3 * size;
    } else {
      assert InBand(c, size) <==> 10 * d < 3 * size;
    }
  }

  /** The band is empty for a frame of no positive extent. */
  lemma EmptyBandForDegenerateFrame(c: int, size: int)
    requires size <= 0
    ensures !InBand(c, size)
  {
    InBandIffInteger(c, size);
  }

  /** Boundary points are excluded. */
  lemma BandBoundaryExcluded(size: int)
    requires size >= 0 && size % 20 == 0
    ensures !InBand(size / 2 - 3 * size / 20, size)
    ensures !InBand(size / 2 + 3 * size / 20, size)
  {
    var m := size / 20;
    assert size == 20 * m;
    assert size / 2 == 10 * m && 3 * size / 20 == 3 * m;
    assert !InBand(7 * m, size) && !InBand(13 * m, size);
  }

  /** Evaluate one selected detection against the frame and the latest
      calibration verdict. */
  function Evaluate(d: Detection, width: int, height: int, calibrationOk: bool): (v: PlacementVerdict)
    ensures v.center == Center(d.box)
    ensures v.boxWidth == d.box.x2 - d.box.x1 && v.boxHeight == d.box.y2 - d.box.y1
    ensures v.isStandard <==>
              && d.conf > StandardConfidence
              && 10 * Abs(2 * v.center.x - width) < 3 * width
              && 10 * Abs(2 * v.center.y - height) < 3 * height
              && calibrationOk
  {
    var c := Center(d.box);
    InBandIffInteger(c.x, width);
    InBandIffInteger(c.y, height);
    var standard := d.conf > StandardConfidence && IsCentered(c, width, height) && calibrationOk;
    PlacementVerdict(standard, c, d.box.x2 - d.box.x1, d.box.y2 - d.box.y1)
  }

  /** Quality gates placement: an unacceptable calibration rules out a standard plane. */
  lemma QualityGatesPlacement(d: Detection, width: int, height: int)
    ensures !Evaluate(d, width, height, false).isStandard
  {
  }

  /** A confidence of 0.5 is never a standard plane, wherever the box is. */
  lemma HalfConfidenceNeverStandard(b: Box, width: int, height: int, calibrationOk: bool)
    ensures !Evaluate(Detection(b, 0.5), width, height, calibrationOk).isStandard
  {
  }

  /** A confident box centred on the midpoint of a 640x480 frame with good
      calibration is a standard plane. */
  lemma CenteredBoxIsStandard()
    ensures Center(Box(300, 220, 340, 260)) == Point(320, 240)
    ensures Evaluate(Detection(Box(300, 220, 340, 260), 0.8), 640, 480, true).isStandard
  {
  }
}
