/** The OpenCV and NumPy image algorithms the extractor calls but does not define. Each is a field of an
    oracle value, so every statement about them holds for any implementation. Pixel-producing calls
    are given per pixel, which keeps the result the size of its input as OpenCV does. */
module Vision {
  import opened Common
  import opened Geometry
  import opened Raster

  /** A segment `(x1, y1, x2, y2)` found by `HoughLinesP`. */
  datatype Segment = Segment(x1: int, y1: int, x2: int, y2: int)

  datatype Cv = Cv(
    /** `minAreaRect(shape)` reports the angle 90.0 (the test of `is_rectangular`). */
    isRectangular: seq<Point> -> bool,
    /** Pixel (i, j) of `GaussianBlur` followed by a binary Otsu `threshold`. */
    binarize: (Raster, nat, nat) -> int,
    /** `findContours(img, RETR_TREE, CHAIN_APPROX_SIMPLE)`: each contour as its point sequence. */
    contours: Raster -> seq<seq<Point>>,
    /** `get_centroid_y`: `int(m01 / m00)` of the contour's moments, `m00` replaced by 1 when it is 0. */
    centroidY: seq<Point> -> int,
    /** `resize(contour, fx=1.49, fy=1.49).astype(int32)`: a resampling of the point array. */
    resized: seq<Point> -> seq<Point>,
    /** Pixel (i, j) after `fillPoly(img, polygons, color=band, lineType=LINE_AA)`. */
    fillPoly: (Raster, seq<seq<Point>>, Band, nat, nat) -> int,
    /** Whether `fillConvexPoly(mask, pts, 1)` sets pixel (i, j). */
    convexMask: (seq<Point>, nat, nat) -> bool,
    /** `HoughLinesP(Canny(img, 100, 300, 5), 1, pi/180, votes, minLineLength, maxLineGap)`; `None` when it finds none. */
    hough: (Raster, int, real, real) -> Option<seq<Segment>>,
    /** `atan2(x2 - x1, y2 - y1) * 180 / pi` of a segment, in degrees. */
    angleOf: Segment -> real,
    /** `image_center`: the moments' centroid `(int(m10 / m00), int(m01 / m00))`. */
    imageCenter: Raster -> (int, int),
    /** Pixel (i, j) of `warpAffine` with the rotation about `center` by `angle` degrees, output size unchanged. */
    warp: (Raster, (int, int), real, nat, nat) -> int
  )

  /** `binarize_frame(img)`: the binarized image, of the input's size. */
  function Binarize(cv: Cv, img: Raster): (r: Raster)
    requires img.Valid()
    ensures r.Valid() && r.Height() == img.Height() && r.width == img.width
  {
    Tabulate(img.Height(), img.width, (i: nat, j: nat) => cv.binarize(img, i, j))
  }
}
