/** Cutting a text line out of the page raster and the sanitizer stages applied to the cut:
    clearing intruders at the top and bottom edge, fitting to a polygon, rotation and padding. */
module Sanitize {
  import opened Common
  import opened Seqs
  import opened Geometry
  import opened Raster
  import opened Vision

  /** `DEFAULT_INTRUSION_RATIO`: a tenth at the top and a tenth at the bottom. */
  const DefaultIntrusionRatio: real := 0.1
  /** The intrusion ratio `create` passes when none is given (it differs from `DefaultIntrusionRatio`). */
  const CreateIntrusionRatio: real := 0.125
  /** `DEFAULT_ROTATION_THRESH` */
  const DefaultRotationThreshold: real := 0.1
  /** Hough angles further than this from 90 degrees are misfits. */
  const MaxAngle: real := 10.0
  /** The padding `rotate_text_line_center` adds before warping and slices off afterwards. */
  const RotationPadding: nat := 50

  /** An intrusion ratio: one value for both edges, or a list `[top, bottom]`. */
  datatype Ratio = Scalar(r: real) | PerEdge(top: real, bottom: real)

  /** `calculate_intrusion_aware_edge`: rows up to `top` and from `bottom` on are intrusion areas. */
  function IntrusionEdges(height: nat, ratio: Ratio): (int, int)
  {
    match ratio
    case Scalar(r) => Edges(height, r, r)
    case PerEdge(t, b) => Edges(height, t, b)
  }

  /** `(int(height * t), int(height - height * b))` */
  function Edges(height: nat, t: real, b: real): (int, int)
  {
    var h := height as real;
    (Trunc(h * t), Trunc(h - h * b))
  }

  lemma {:induction false} TruncMonotone(a: real, b: real)
    requires 0.0 <= a <= b
    ensures 0 <= Trunc(a) <= Trunc(b)
  {
  }

  lemma {:induction false} ScaleBelow(h: real, t: real, b: real)
    requires 0.0 <= h && 0.0 <= t && 0.0 <= b && t + b <= 1.0
    ensures 0.0 <= h * t <= h - h * b <= h
  {
    MulNonNeg(h, t);
    MulNonNeg(h, b);
    MulLe(h, t + b, 1.0);
    MulDistrib(h, t, b);
  }

  /** Scaled heights `a <= d <= height` keep their order after truncation. */
  lemma {:induction false} TruncOrdered(height: nat, a: real, d: real)
    requires 0.0 <= a <= d <= height as real
    ensures 0 <= Trunc(a) <= Trunc(d) <= height
  {
    TruncMonotone(a, d);
    TruncMonotone(d, height as real);
    assert (height as real).Floor == height;
  }

  lemma {:induction false} EdgesOrdered(height: nat, t: real, b: real)
    requires 0.0 <= t && 0.0 <= b && t + b <= 1.0
    ensures 0 <= Edges(height, t, b).0 <= Edges(height, t, b).1 <= height
  {
    var h := height as real;
    ScaleBelow(h, t, b);
    TruncOrdered(height, h * t, h - h * b);
  }

  /** Ratios that do not overlap give edges ordered inside the image: `0 <= top <= bottom <= height`. */
  lemma {:induction false} IntrusionEdgesOrdered(height: nat, t: real, b: real)
    requires 0.0 <= t && 0.0 <= b && t + b <= 1.0
    ensures 0 <= IntrusionEdges(height, PerEdge(t, b)).0 <= IntrusionEdges(height, PerEdge(t, b)).1 <= height
  {
    EdgesOrdered(height, t, b);
  }

  /** A scalar ratio `r` in [0, 0.5] puts both edges inside the image, `top` first. */
  lemma {:induction false} ScalarEdgesOrdered(height: nat, r: real)
    requires 0.0 <= r <= 0.5
    ensures 0 <= IntrusionEdges(height, Scalar(r)).0 <= IntrusionEdges(height, Scalar(r)).1 <= height
  {
    IntrusionEdgesOrdered(height, r, r);
  }

  /** `v in c` of a NumPy contour: some x or some y coordinate equals `v`. */
  predicate HasCoord(c: seq<Point>, v: int)
  {
    exists i :: 0 <= i < |c| && (c[i].x == v || c[i].y == v)
  }

  /** The binarized frame with a white border of one pixel, the image the contours are found in. */
  function Bordered(cv: Cv, frame: Raster): (r: Raster)
    requires frame.Valid()
    ensures r.Valid() && r.Height() == frame.Height() + 2 && r.width == frame.width + 2
  {
    Border(Binarize(cv, frame), 1, 255)
  }

  /** Contours touching the top row whose centroid lies at or above the top edge. */
  function TopIntruders(cv: Cv, frame: Raster, ratio: Ratio): (r: seq<seq<Point>>)
    requires frame.Valid()
    ensures var img := Bordered(cv, frame); var top := IntrusionEdges(img.Height(), ratio).0;
      forall c :: c in r <==> c in cv.contours(img) && HasCoord(c, 0) && cv.centroidY(c) <= top
  {
    var img := Bordered(cv, frame);
    var top := IntrusionEdges(img.Height(), ratio).0;
    Filter(Filter(cv.contours(img), c => HasCoord(c, 0)), c => cv.centroidY(c) <= top)
  }

  /** Contours touching the bottom row whose centroid lies at or below the bottom edge. */
  function BottomIntruders(cv: Cv, frame: Raster, ratio: Ratio): (r: seq<seq<Point>>)
    requires frame.Valid()
    ensures var img := Bordered(cv, frame); var btm := IntrusionEdges(img.Height(), ratio).1;
      forall c :: c in r <==> c in cv.contours(img) && HasCoord(c, img.Height() - 1) && cv.centroidY(c) >= btm
  {
    var img := Bordered(cv, frame);
    var btm := IntrusionEdges(img.Height(), ratio).1;
    Filter(Filter(cv.contours(img), c => HasCoord(c, img.Height() - 1)), c => cv.centroidY(c) >= btm)
  }

  /** `clear_vertical_borders` on a value: the frame after filling the resampled intruders with the gray band,
      and the numbers of top and bottom intruders. Without intruders the frame is returned as it is. */
  function ClearSpec(cv: Cv, frame: Raster, ratio: Ratio): (r: Result<(Raster, nat, nat)>)
    requires frame.Valid()
    ensures r.Ok? ==> r.value.0.Valid() && r.value.0.Height() == frame.Height() && r.value.0.width == frame.width
    ensures r.Ok? ==> r.value.1 == |TopIntruders(cv, frame, ratio)| && r.value.2 == |BottomIntruders(cv, frame, ratio)|
    ensures TopIntruders(cv, frame, ratio) == [] && BottomIntruders(cv, frame, ratio) == [] ==> r == Ok((frame, 0, 0))
    ensures r.Err? <==> (TopIntruders(cv, frame, ratio) + BottomIntruders(cv, frame, ratio) != [] &&
      (frame.Height() == 0 || CalcReference(frame).None?))
  {
    var tops := TopIntruders(cv, frame, ratio);
    var btms := BottomIntruders(cv, frame, ratio);
    var intruders := tops + btms;
    if intruders == [] then Ok((frame, 0, 0))
    else
      var filled :- FillIntruders(cv, frame, intruders);
      Ok((filled, |tops|, |btms|))
  }

  /** The filling step of `clear_vertical_borders`: the gray band of the frame, and every pixel as `fillPoly`
      leaves it after filling the resampled intruders with that band. */
  function FillIntruders(cv: Cv, frame: Raster, intruders: seq<seq<Point>>): (r: Result<Raster>)
    requires frame.Valid()
    ensures r.Ok? ==> r.value.Valid() && r.value.Height() == frame.Height() && r.value.width == frame.width
    ensures r.Err? <==> frame.Height() == 0 || CalcReference(frame).None?
  {
    match CalculateGrayscale(168, 32, Some(frame))
    case Err(e) => Err(e)
    case Ok(None) => Err(MissingValue)
    case Ok(Some(band)) =>
      var scaled := Map(intruders, cv.resized);
      Ok(Tabulate(frame.Height(), frame.width, (i: nat, j: nat) => cv.fillPoly(frame, scaled, band, i, j)))
  }

  /** `clear_vertical_borders(image_frame, intrusion_ratio)`: fills the intruders into `frame` in place and
      returns the two counts; the frame is written only when there are intruders. */
  method ClearVerticalBorders(cv: Cv, frame: array2<int>, ratio: Ratio) returns (r: Result<(nat, nat)>)
    modifies frame
    ensures var s := ClearSpec(cv, old(Pixels(frame)), ratio);
      (r.Ok? <==> s.Ok?) && (r.Ok? ==> r.value == (s.value.1, s.value.2) && Pixels(frame) == s.value.0) &&
      (r.Err? ==> r.error == s.error)
    ensures r.Err? ==> Pixels(frame) == old(Pixels(frame))
  {
    var img := Pixels(frame);
    var tops := TopIntruders(cv, img, ratio);
    var btms := BottomIntruders(cv, img, ratio);
    if tops + btms != [] {
      var g := CalculateGrayscale(168, 32, Some(img));
      if g.Err? {
        return Err(g.error);
      }
      if g.value.None? {
        return Err(MissingValue);
      }
      var scaled := Map(tops + btms, cv.resized);
      FillPoly(cv, frame, img, scaled, g.value.value);
    }
    r := Ok((|tops|, |btms|));
  }

  /** `fillPoly` on `frame` in place: every pixel becomes what `fillPoly` makes of it in `img`. */
  method FillPoly(cv: Cv, frame: array2<int>, img: Raster, polygons: seq<seq<Point>>, band: Band)
    requires img == Pixels(frame)
    modifies frame
    ensures Pixels(frame) == Tabulate(img.Height(), img.width, (i: nat, j: nat) => cv.fillPoly(img, polygons, band, i, j))
  {
    forall i, j | 0 <= i < frame.Length0 && 0 <= j < frame.Length1 {
      frame[i, j] := cv.fillPoly(img, polygons, band, i, j);
    }
    RasterEq(Pixels(frame), Tabulate(img.Height(), img.width, (i: nat, j: nat) => cv.fillPoly(img, polygons, band, i, j)));
  }

  /** The points of a shape as `np.array(shape, dtype=np.int32)` stores them. */
  function Int32Points(shape: seq<Point>): (r: seq<Point>)
    ensures |r| == |shape|
    ensures forall i :: 0 <= i < |shape| ==> r[i] == Point(WrapInt32(shape[i].x), WrapInt32(shape[i].y))
  {
    Map(shape, (p: Point) => Point(WrapInt32(p.x), WrapInt32(p.y)))
  }

  /** The polygon of `fit_to_shape` moved to the origin of its bounding rectangle, and that rectangle. */
  function MaskPolygon(shape: seq<Point>): (r: (seq<Point>, (int, int, int, int)))
    requires shape != []
    ensures r.1.2 >= 1 && r.1.3 >= 1
    ensures forall i :: 0 <= i < |r.0| ==> 0 <= r.0[i].x < r.1.2 && 0 <= r.0[i].y < r.1.3
  {
    var pts := Int32Points(shape);
    var rect := BoundingRect(pts);
    TranslateIntoRect(pts);
    (Translate(pts, rect.0, rect.1), rect)
  }

  /** `canvas[mask] = frame[mask]` on values: the frame's pixel where the mask is set, the canvas's elsewhere. */
  function Composite(frame: Raster, canvas: Raster, cv: Cv, poly: seq<Point>): (r: Raster)
    requires frame.Valid() && canvas.Valid() && canvas.Height() == frame.Height() && canvas.width == frame.width
    ensures r.Valid() && r.Height() == frame.Height() && r.width == frame.width
    ensures forall i, j :: 0 <= i < frame.Height() && 0 <= j < frame.width && cv.convexMask(poly, i, j) ==> r.rows[i][j] == frame.rows[i][j]
    ensures forall i, j :: 0 <= i < frame.Height() && 0 <= j < frame.width && !cv.convexMask(poly, i, j) ==> r.rows[i][j] == canvas.rows[i][j]
  {
    Tabulate(frame.Height(), frame.width,
      (i: nat, j: nat) =>
        if i < frame.Height() && j < frame.width then
          (if cv.convexMask(poly, i, j) then frame.rows[i][j] else canvas.rows[i][j])
        else 0)
  }

  /** `fit_to_shape(frame, shape)` on values: a gray canvas one pixel smaller than the bounding rectangle, with
      the frame's pixels copied in wherever the polygon's mask is set. The mask has the frame's size, so a
      canvas of another size is refused as NumPy refuses the boolean index. */
  function FitSpec(cv: Cv, frame: Raster, shape: seq<Point>, noise: (nat, nat) -> nat): (r: Result<Raster>)
    requires frame.Valid()
    ensures r.Ok? ==> r.value.Valid() && r.value.Height() == frame.Height() && r.value.width == frame.width
    ensures r.Ok? ==> shape != [] && var poly := MaskPolygon(shape).0;
      forall i, j :: 0 <= i < frame.Height() && 0 <= j < frame.width && cv.convexMask(poly, i, j) ==> r.value.rows[i][j] == frame.rows[i][j]
    ensures r.Err? <==> (shape == [] || frame.Height() == 0 || CalcReference(frame).None? ||
      MaskPolygon(shape).1.3 - 1 != frame.Height() || MaskPolygon(shape).1.2 - 1 != frame.width)
  {
    if shape == [] then Err(EmptyPointSet)
    else
      var poly := MaskPolygon(shape).0;
      var rect := MaskPolygon(shape).1;
      var canvas :- GrayCanvas(rect.2 - 1, rect.3 - 1, frame, noise);
      if canvas.Height() != frame.Height() || canvas.width != frame.width then Err(MaskShapeMismatch)
      else
        Ok(Composite(frame, canvas, cv, poly))
  }

  lemma {:induction false} FitUnfold(cv: Cv, img: Raster, shape: seq<Point>, noise: (nat, nat) -> nat)
    requires img.Valid() && shape != []
    ensures var g := GrayCanvas(MaskPolygon(shape).1.2 - 1, MaskPolygon(shape).1.3 - 1, img, noise);
      FitSpec(cv, img, shape, noise) ==
        if g.Err? then Err(g.error)
        else if g.value.Height() != img.Height() || g.value.width != img.width then Err(MaskShapeMismatch)
        else Ok(Composite(img, g.value, cv, MaskPolygon(shape).0))
  {
  }

  lemma {:induction false} FitOk(cv: Cv, img: Raster, shape: seq<Point>, noise: (nat, nat) -> nat)
    requires img.Valid() && FitSpec(cv, img, shape, noise).Ok?
    ensures shape != []
    ensures var g := GrayCanvas(MaskPolygon(shape).1.2 - 1, MaskPolygon(shape).1.3 - 1, img, noise);
      g.Ok? && g.value.Height() == img.Height() && g.value.width == img.width &&
      FitSpec(cv, img, shape, noise).value == Composite(img, g.value, cv, MaskPolygon(shape).0)
  {
    FitUnfold(cv, img, shape, noise);
  }

  /** A new array holding the pixels of `r`. */
  method ToArray(r: Raster) returns (a: array2<int>)
    requires r.Valid()
    ensures fresh(a) && Pixels(a) == r
  {
    a := new int[r.Height(), r.width];
    forall i, j | 0 <= i < a.Length0 && 0 <= j < a.Length1 {
      a[i, j] := r.rows[i][j];
    }
    RasterEq(Pixels(a), r);
  }

  /** `canvas[mask] = frame[mask]` in place, `frame` holding the pixels of the frame. */
  method MaskedCopy(canvas: array2<int>, frame: Raster, cv: Cv, poly: seq<Point>)
    requires frame.Valid() && canvas.Length0 == frame.Height() && canvas.Length1 == frame.width
    modifies canvas
    ensures Pixels(canvas) == Composite(frame, old(Pixels(canvas)), cv, poly)
  {
    ghost var before := Pixels(canvas);
    forall i, j | 0 <= i < canvas.Length0 && 0 <= j < canvas.Length1 && cv.convexMask(poly, i, j) {
      canvas[i, j] := frame.rows[i][j];
    }
    RasterEq(Pixels(canvas), Composite(frame, before, cv, poly));
  }

  /** `fit_to_shape`: draws the gray canvas into a new array and overwrites its masked pixels with the frame's. */
  method FitToShape(cv: Cv, frame: array2<int>, shape: seq<Point>, noise: (nat, nat) -> nat) returns (r: Result<array2<int>>)
    ensures r.Ok? <==> FitSpec(cv, Pixels(frame), shape, noise).Ok?
    ensures r.Ok? ==> fresh(r.value) && Pixels(r.value) == FitSpec(cv, Pixels(frame), shape, noise).value
    ensures r.Err? ==> r.error == FitSpec(cv, Pixels(frame), shape, noise).error
  {
    var img := Pixels(frame);
    var s := FitSpec(cv, img, shape, noise);
    if s.Err? {
      return Err(s.error);
    }
    var canvas := DrawFit(cv, img, shape, noise);
    r := Ok(canvas);
  }

  /** The gray canvas of a `fit_to_shape`, sized by the bounding rectangle of the shape. */
  function FitCanvas(img: Raster, shape: seq<Point>, noise: (nat, nat) -> nat): Raster
    requires img.Valid() && shape != [] && GrayCanvas(MaskPolygon(shape).1.2 - 1, MaskPolygon(shape).1.3 - 1, img, noise).Ok?
  {
    GrayCanvas(MaskPolygon(shape).1.2 - 1, MaskPolygon(shape).1.3 - 1, img, noise).value
  }

  /** The canvas of a `fit_to_shape` that succeeds, drawn and then overwritten under the mask. */
  method DrawFit(cv: Cv, img: Raster, shape: seq<Point>, noise: (nat, nat) -> nat) returns (canvas: array2<int>)
    requires img.Valid() && FitSpec(cv, img, shape, noise).Ok?
    ensures fresh(canvas) && Pixels(canvas) == FitSpec(cv, img, shape, noise).value
  {
    FitOk(cv, img, shape, noise);
    var poly := MaskPolygon(shape).0;
    var g := FitCanvas(img, shape, noise);
    canvas := ToArray(g);
    MaskedCopy(canvas, img, cv, poly);
  }

  /** Where the polygon's mask is not set, the result of `fit_to_shape` shows the canvas band
      `[int(ref - 4), int(ref + 4))` whenever that band stays below 256. */
  lemma {:induction false} FitBackground(cv: Cv, frame: Raster, shape: seq<Point>, noise: (nat, nat) -> nat, i: nat, j: nat)
    requires frame.Valid() && FitSpec(cv, frame, shape, noise).Ok?
    requires i < frame.Height() && j < frame.width && !cv.convexMask(MaskPolygon(shape).0, i, j)
    requires Trunc(CalcReference(frame).value - 4.0) + 8 <= 256
    ensures var lo := Trunc(CalcReference(frame).value - 4.0);
      lo <= FitSpec(cv, frame, shape, noise).value.rows[i][j] < lo + 8
  {
    FitUnfold(cv, frame, shape, noise);
  }

  function Abs(x: real): real
  {
    if x < 0.0 then -x else x
  }

  function SumReal(s: seq<real>): real
  {
    if s == [] then 0.0 else s[0] + SumReal(s[1..])
  }

  /** `np.mean` of a non-empty list. */
  function Mean(s: seq<real>): real
    requires s != []
  {
    SumReal(s) / |s| as real
  }

  lemma {:induction false} SumRealBetween(s: seq<real>, lo: real, hi: real)
    requires s != []
    requires forall k :: 0 <= k < |s| ==> lo < s[k] < hi
    ensures lo * |s| as real < SumReal(s) < hi * |s| as real
  {
    var n := |s| as real;
    assert SumReal(s) == s[0] + SumReal(s[1..]);
    if |s| > 1 {
      SumRealBetween(s[1..], lo, hi);
      var m := |s[1..]| as real;
      assert n == m + 1.0;
      MulSucc(lo, m);
      MulSucc(hi, m);
    } else {
      assert s[1..] == [];
      MulSucc(lo, 0.0);
      MulSucc(hi, 0.0);
    }
  }

  /** One more summand adds the factor once more. */
  lemma {:induction false} MulSucc(a: real, m: real)
    ensures a * (m + 1.0) == a * m + a
  {
  }

  /** The mean of values strictly between two bounds lies strictly between them. */
  lemma {:induction false} MeanBetween(s: seq<real>, lo: real, hi: real)
    requires s != []
    requires forall k :: 0 <= k < |s| ==> lo < s[k] < hi
    ensures lo < Mean(s) < hi
  {
    SumRealBetween(s, lo, hi);
    var n := |s| as real;
    assert lo * n / n == lo && hi * n / n == hi;
  }

  /** The Hough angles within `MaxAngle` of 90 degrees. */
  function FitAngles(angles: seq<real>): (r: seq<real>)
    ensures forall a :: a in r <==> a in angles && Abs(90.0 - a) < MaxAngle
  {
    Filter(angles, a => Abs(90.0 - a) < MaxAngle)
  }

  /** The rotation decision of `rotate_text_line_center`: `90 - mean` of the fitting angles when it reaches the
      threshold; no fitting angle makes the mean NaN, and NaN compares false, so there is no rotation then. */
  function RotationAngle(angles: seq<real>, threshold: real): (r: Option<real>)
    ensures FitAngles(angles) == [] ==> r.None?
    ensures r.Some? ==> -MaxAngle < r.value < MaxAngle && Abs(r.value) >= threshold
    ensures r.Some? <==> FitAngles(angles) != [] && Abs(90.0 - Mean(FitAngles(angles))) >= threshold
  {
    var fit := FitAngles(angles);
    if fit == [] then None
    else
      var m := Mean(fit);
      assert 80.0 < m < 100.0 by {
        forall k | 0 <= k < |fit| ensures 80.0 < fit[k] < 100.0 {
          assert fit[k] in fit;
        }
        MeanBetween(fit, 80.0, 100.0);
      }
      if Abs(90.0 - m) >= threshold then Some(90.0 - m) else None
  }

  /** `rotate_text_line_center(img, threshold)`: the Hough segments' angles decide a rotation; a rotation pads by
      50, warps about the centre of the unpadded image and slices the padding off again. Returns the image
      and the angle, `None` when nothing was rotated. */
  function RotateTextLineCenter(cv: Cv, img: Raster, threshold: real): (r: Result<(Raster, Option<real>)>)
    requires img.Valid()
    ensures r.Ok? ==> r.value.0.Valid() && r.value.0.Height() == img.Height() && r.value.0.width == img.width
    ensures r.Ok? && r.value.1.None? ==> r.value.0 == img
    ensures r.Ok? && r.value.1.Some? ==> -MaxAngle < r.value.1.value < MaxAngle && Abs(r.value.1.value) >= threshold
    ensures r.Err? ==> img.Height() == 0 || CalcReference(img).None?
  {
    match LineRotation(cv, img, threshold)
    case None => Ok((img, None))
    case Some(angle) =>
      var rotated :- RotateBy(cv, img, angle);
      Ok((rotated, Some(angle)))
  }

  /** The angle `rotate_text_line_center` rotates by: Hough over `votes = int(height / 2)` with minimum line
      length and maximum gap `width / 4`; `None` when Hough finds no segment or the angles decide against it. */
  function LineRotation(cv: Cv, img: Raster, threshold: real): (r: Option<real>)
    ensures r.Some? ==> -MaxAngle < r.value < MaxAngle && Abs(r.value) >= threshold
  {
    var minLen := img.width as real / 4.0;
    var votes := Trunc(img.Height() as real / 2.0);
    match cv.hough(img, votes, minLen, minLen)
    case None => None
    case Some(segments) => RotationAngle(Map(segments, cv.angleOf), threshold)
  }

  /** The rotation itself: pad by 50, warp about the centre of the unpadded image, slice the padding off. */
  function RotateBy(cv: Cv, img: Raster, angle: real): (r: Result<Raster>)
    requires img.Valid()
    ensures r.Ok? ==> r.value.Valid() && r.value.Height() == img.Height() && r.value.width == img.width
    ensures r.Err? ==> img.Height() == 0 || CalcReference(img).None?
  {
    var center := cv.imageCenter(img);
    var padded :- AddPadding(img, RotationPadding);
    var warped := Tabulate(padded.Height(), padded.width, (i: nat, j: nat) => cv.warp(padded, center, angle, i, j));
    SliceBackSize(warped, img.Height(), img.width, RotationPadding);
    Ok(Slice2D(warped, RotationPadding, -(RotationPadding as int), RotationPadding, -(RotationPadding as int)))
  }

  /** When no Hough angle lies within 10 degrees of 90, the line is not rotated. */
  lemma {:induction false} NoFittingAngleNoRotation(cv: Cv, img: Raster, threshold: real)
    requires img.Valid()
    requires var minLen := img.width as real / 4.0; var votes := Trunc(img.Height() as real / 2.0);
      var lines := cv.hough(img, votes, minLen, minLen);
      lines.None? || FitAngles(Map(lines.value, cv.angleOf)) == []
    ensures RotateTextLineCenter(cv, img, threshold) == Ok((img, None))
  {
    assert LineRotation(cv, img, threshold).None?;
    var r := RotateTextLineCenter(cv, img, threshold);
    assert r.Ok? && r.value.1.None?;
    assert r.value == (img, None);
  }

  /** `sanitize_frame` on values: clear the vertical borders, fit a non-rectangular shape, rotate, then pad
      when `padding > 0`. */
  function SanitizeSpec(cv: Cv, frame: Raster, shape: seq<Point>, ratio: Ratio, threshold: real, padding: int,
                        noise: (nat, nat) -> nat): (r: Result<Raster>)
    requires frame.Valid()
    ensures r.Ok? ==> r.value.Valid()
    ensures r.Ok? ==> var p := if padding > 0 then padding else 0;
      r.value.Height() == frame.Height() + 2 * p && r.value.width == frame.width + 2 * p
  {
    var cleared :- ClearSpec(cv, frame, ratio);
    var fitted :- if cv.isRectangular(shape) then Ok(cleared.0) else FitSpec(cv, cleared.0, shape, noise);
    var rotated :- RotateTextLineCenter(cv, fitted, threshold);
    if padding > 0 then AddPadding(rotated.0, padding) else Ok(rotated.0)
  }

  /** `sanitize_frame(frame, text_line, ...)`: the stages in their order; the clearing stage works on `frame`
      itself, the later ones on new images. */
  method SanitizeFrame(cv: Cv, frame: array2<int>, shape: seq<Point>, ratio: Ratio, threshold: real, padding: int,
                       noise: (nat, nat) -> nat) returns (r: Result<Raster>)
    modifies frame
    ensures r == SanitizeSpec(cv, old(Pixels(frame)), shape, ratio, threshold, padding, noise)
    ensures var c := ClearSpec(cv, old(Pixels(frame)), ratio);
      Pixels(frame) == (if c.Ok? then c.value.0 else old(Pixels(frame)))
  {
    ghost var before := Pixels(frame);
    var c := ClearVerticalBorders(cv, frame, ratio);
    if c.Err? {
      return Err(c.error);
    }
    ghost var cleared := ClearSpec(cv, before, ratio).value.0;
    assert Pixels(frame) == cleared;
    var fitted := FitStep(cv, frame, shape, noise);
    assert fitted == if cv.isRectangular(shape) then Ok(cleared) else FitSpec(cv, cleared, shape, noise);
    if fitted.Err? {
      return Err(fitted.error);
    }
    var current := fitted.value;
    var rotated := RotateTextLineCenter(cv, current, threshold);
    if rotated.Err? {
      return Err(rotated.error);
    }
    if padding > 0 {
      r := AddPadding(rotated.value.0, padding);
    } else {
      r := Ok(rotated.value.0);
    }
  }

  /** The fitting stage of `sanitize_frame`: a rectangular shape keeps the frame, any other is fitted. */
  method FitStep(cv: Cv, frame: array2<int>, shape: seq<Point>, noise: (nat, nat) -> nat) returns (r: Result<Raster>)
    requires Pixels(frame).Valid()
    ensures r == if cv.isRectangular(shape) then Ok(Pixels(frame)) else FitSpec(cv, Pixels(frame), shape, noise)
  {
    if cv.isRectangular(shape) {
      return Ok(Pixels(frame));
    }
    var f := FitToShape(cv, frame, shape, noise);
    if f.Err? {
      return Err(f.error);
    }
    r := Ok(Pixels(f.value));
  }

  /** The box `extract_rectangular_frame` cuts: the first and third corner of a rectangular shape, otherwise
      the bounding box; a shape of fewer than three points has no third corner. */
  function CropBox(cv: Cv, shape: seq<Point>): (r: Result<Box>)
    ensures r.Err? <==> |shape| < 3
    ensures r.Ok? && !cv.isRectangular(shape) ==> r.value == ShapeToBox(shape)
  {
    if |shape| < 3 then Err(IndexOutOfRange)
    else if cv.isRectangular(shape) then Ok(Box(shape[0].x, shape[0].y, shape[2].x, shape[2].y))
    else Ok(ShapeToBox(shape))
  }

  /** `image[y1:y2, x1:x2]` */
  function Crop(page: Raster, b: Box): (r: Raster)
    requires page.Valid()
    ensures r.Valid()
  {
    Slice2D(page, b.y1, b.y2, b.x1, b.x2)
  }

  /** For an ALTO line inside the page the crop is the line's `HEIGHT` rows by `WIDTH` columns starting at
      (`VPOS`, `HPOS`), whatever `is_rectangular` answers. */
  lemma {:induction false} AltoCrop(cv: Cv, page: Raster, x: int, y: int, w: int, h: int)
    requires page.Valid() && w >= 0 && h >= 0
    requires 0 <= x && x + w <= page.width && 0 <= y && y + h <= page.Height()
    ensures CropBox(cv, AltoShape(x, y, w, h)) == Ok(Box(x, y, x + w, y + h))
    ensures var c := Crop(page, Box(x, y, x + w, y + h));
      c.Height() == h && c.width == w &&
      forall i, j :: 0 <= i < h && 0 <= j < w ==> c.rows[i][j] == page.rows[y + i][x + j]
  {
    AltoCropBox(cv, x, y, w, h);
    CropInside(page, Box(x, y, x + w, y + h));
  }

  /** Rectangular or not, the corners of an ALTO line crop to the line's own box. */
  lemma {:induction false} AltoCropBox(cv: Cv, x: int, y: int, w: int, h: int)
    requires w >= 0 && h >= 0
    ensures CropBox(cv, AltoShape(x, y, w, h)) == Ok(Box(x, y, x + w, y + h))
  {
    var s := AltoShape(x, y, w, h);
    AltoShapeBox(x, y, w, h);
    assert |s| == 4;
  }

  /** A box inside the page crops to its own rows and columns. */
  lemma {:induction false} CropInside(page: Raster, b: Box)
    requires page.Valid() && 0 <= b.x1 <= b.x2 <= page.width && 0 <= b.y1 <= b.y2 <= page.Height()
    ensures var c := Crop(page, b);
      c.Height() == b.y2 - b.y1 && c.width == b.x2 - b.x1 &&
      forall i, j :: 0 <= i < c.Height() && 0 <= j < c.width ==> c.rows[i][j] == page.rows[b.y1 + i][b.x1 + j]
  {
    assert SliceRange(page.Height(), b.y1, b.y2) == (b.y1, b.y2 - b.y1);
    assert SliceRange(page.width, b.x1, b.x2) == (b.x1, b.x2 - b.x1);
  }

  /** `extract_rectangular_frame(page, text_line)`: a new array holding the crop; the page is only read. */
  method ExtractRectangularFrame(cv: Cv, page: array2<int>, shape: seq<Point>) returns (r: Result<array2<int>>)
    ensures r.Ok? <==> CropBox(cv, shape).Ok?
    ensures r.Err? ==> r.error == CropBox(cv, shape).error
    ensures r.Ok? ==> fresh(r.value) && Pixels(r.value) == Crop(Pixels(page), CropBox(cv, shape).value)
  {
    var box := CropBox(cv, shape);
    if box.Err? {
      return Err(box.error);
    }
    var frame := ToArray(Crop(Pixels(page), box.value));
    r := Ok(frame);
  }
}
