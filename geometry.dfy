/** Integer geometry of text lines: point strings, boxes and Python slice bounds. */
module Geometry {
  import opened Common
  import opened Text

  datatype Point = Point(x: int, y: int)

  /** Axis-aligned box with corners (x1, y1) and (x2, y2). */
  datatype Box = Box(x1: int, y1: int, x2: int, y2: int)

  /** Python `int()` of a float: truncation toward zero. */
  function Trunc(x: real): (r: int)
    ensures x >= 0.0 ==> r as real <= x < r as real + 1.0
    ensures x < 0.0 ==> r as real - 1.0 < x <= r as real
  {
    if x >= 0.0 then x.Floor else -((-x).Floor)
  }

  lemma {:induction false} MulNonNeg(a: real, b: real)
    requires 0.0 <= a && 0.0 <= b
    ensures 0.0 <= a * b
  {
  }

  lemma {:induction false} MulDistrib(h: real, t: real, b: real)
    ensures h * (t + b) == h * t + h * b
  {
  }

  lemma {:induction false} MulLe(h: real, x: real, y: real)
    requires 0.0 <= h && x <= y
    ensures h * x <= h * y
  {
    MulNonNeg(h, y - x);
    assert h * (y - x) == h * y - h * x;
  }

  /** `[int(n) for n in token.split(',')]` */
  function CommaInts(parts: seq<string>): (r: Result<seq<int>>)
    ensures r.Ok? ==> |r.value| == |parts|
    ensures r.Ok? ==> forall i :: 0 <= i < |parts| ==> Int(parts[i]) == Ok(r.value[i])
    ensures r.Err? ==> exists i :: 0 <= i < |parts| && Int(parts[i]).Err?
  {
    if parts == [] then Ok([])
    else
      match Int(parts[0])
      case Err(e) => Err(e)
      case Ok(n) =>
        match CommaInts(parts[1..])
        case Err(e) =>
          assert exists i :: 1 <= i < |parts| && Int(parts[i]).Err? by {
            var i :| 0 <= i < |parts[1..]| && Int(parts[1..][i]).Err?;
            assert parts[1..][i] == parts[i + 1];
          }
          Err(e)
        case Ok(ns) => Ok([n] + ns)
  }

  /** `[int(n) for pair in tokens for n in pair.split(',')]` */
  function TokenInts(tokens: seq<string>): Result<seq<int>>
  {
    if tokens == [] then Ok([])
    else
      var head :- CommaInts(SplitOn(tokens[0], ','));
      var tail :- TokenInts(tokens[1..]);
      Ok(head + tail)
  }

  /** The numbers of a PAGE `points` attribute: whitespace-separated tokens, each split on commas. */
  function Numbers(points: string): Result<seq<int>>
  {
    TokenInts(SplitWs(points))
  }

  /** `list(zip(*[iter(ns)] * 2))`: consecutive pairs; an odd last number is dropped. */
  function Pairs(ns: seq<int>): (r: seq<Point>)
    ensures |r| == |ns| / 2
    ensures forall i :: 0 <= i < |r| ==> r[i] == Point(ns[2 * i], ns[2 * i + 1])
  {
    if |ns| < 2 then [] else [Point(ns[0], ns[1])] + Pairs(ns[2..])
  }

  function ParsePoints(points: string): Result<seq<Point>>
  {
    var ns :- Numbers(points);
    Ok(Pairs(ns))
  }

  function SumX(ps: seq<Point>): int
  {
    if ps == [] then 0 else ps[0].x + SumX(ps[1..])
  }

  function MinX(ps: seq<Point>): (m: int)
    requires ps != []
    ensures forall i :: 0 <= i < |ps| ==> m <= ps[i].x
    ensures exists i :: 0 <= i < |ps| && m == ps[i].x
  {
    if |ps| == 1 then ps[0].x
    else
      var m := MinX(ps[1..]);
      assert forall i :: 1 <= i < |ps| ==> ps[i] == ps[1..][i - 1];
      if ps[0].x <= m then ps[0].x else m
  }

  function MaxX(ps: seq<Point>): (m: int)
    requires ps != []
    ensures forall i :: 0 <= i < |ps| ==> ps[i].x <= m
    ensures exists i :: 0 <= i < |ps| && m == ps[i].x
  {
    if |ps| == 1 then ps[0].x
    else
      var m := MaxX(ps[1..]);
      assert forall i :: 1 <= i < |ps| ==> ps[i] == ps[1..][i - 1];
      if ps[0].x >= m then ps[0].x else m
  }

  function MinY(ps: seq<Point>): (m: int)
    requires ps != []
    ensures forall i :: 0 <= i < |ps| ==> m <= ps[i].y
    ensures exists i :: 0 <= i < |ps| && m == ps[i].y
  {
    if |ps| == 1 then ps[0].y
    else
      var m := MinY(ps[1..]);
      assert forall i :: 1 <= i < |ps| ==> ps[i] == ps[1..][i - 1];
      if ps[0].y <= m then ps[0].y else m
  }

  function MaxY(ps: seq<Point>): (m: int)
    requires ps != []
    ensures forall i :: 0 <= i < |ps| ==> ps[i].y <= m
    ensures exists i :: 0 <= i < |ps| && m == ps[i].y
  {
    if |ps| == 1 then ps[0].y
    else
      var m := MaxY(ps[1..]);
      assert forall i :: 1 <= i < |ps| ==> ps[i] == ps[1..][i - 1];
      if ps[0].y >= m then ps[0].y else m
  }

  predicate Inside(p: Point, b: Box)
  {
    b.x1 <= p.x <= b.x2 && b.y1 <= p.y <= b.y2
  }

  /** `shape_to_box`: per-axis minimum and maximum, so every point lies in the box and each bound is attained. */
  function ShapeToBox(ps: seq<Point>): (b: Box)
    requires ps != []
    ensures forall i :: 0 <= i < |ps| ==> Inside(ps[i], b)
    ensures exists i :: 0 <= i < |ps| && ps[i].x == b.x1
    ensures exists i :: 0 <= i < |ps| && ps[i].y == b.y1
    ensures exists i :: 0 <= i < |ps| && ps[i].x == b.x2
    ensures exists i :: 0 <= i < |ps| && ps[i].y == b.y2
  {
    Box(MinX(ps), MinY(ps), MaxX(ps), MaxY(ps))
  }

  /** No smaller box holds all the points. */
  lemma {:induction false} ShapeToBoxTightest(ps: seq<Point>, b: Box)
    requires ps != []
    requires forall i :: 0 <= i < |ps| ==> Inside(ps[i], b)
    ensures b.x1 <= ShapeToBox(ps).x1 && ShapeToBox(ps).x2 <= b.x2
    ensures b.y1 <= ShapeToBox(ps).y1 && ShapeToBox(ps).y2 <= b.y2
  {
    var s := ShapeToBox(ps);
    var i1 :| 0 <= i1 < |ps| && ps[i1].x == s.x1;
    var j1 :| 0 <= j1 < |ps| && ps[j1].y == s.y1;
    var i2 :| 0 <= i2 < |ps| && ps[i2].x == s.x2;
    var j2 :| 0 <= j2 < |ps| && ps[j2].y == s.y2;
    assert Inside(ps[i1], b) && Inside(ps[j1], b) && Inside(ps[i2], b) && Inside(ps[j2], b);
  }

  /** The four corners of an ALTO `TextLine`, clockwise from the top left. */
  function AltoShape(x: int, y: int, w: int, h: int): seq<Point>
  {
    [Point(x, y), Point(x + w, y), Point(x + w, y + h), Point(x, y + h)]
  }

  /** For a box with non-negative extent the ALTO corners span exactly (x, y, x+W, y+H),
      which is also what the first and third corner give. */
  lemma {:induction false} AltoShapeBox(x: int, y: int, w: int, h: int)
    requires w >= 0 && h >= 0
    ensures ShapeToBox(AltoShape(x, y, w, h)) == Box(x, y, x + w, y + h)
    ensures AltoShape(x, y, w, h)[0] == Point(x, y) && AltoShape(x, y, w, h)[2] == Point(x + w, y + h)
  {
    var s := AltoShape(x, y, w, h);
    var corners := Box(x, y, x + w, y + h);
    forall i | 0 <= i < |s| ensures Inside(s[i], corners) {
    }
    ShapeToBoxTightest(s, corners);
    var b := ShapeToBox(s);
    assert Inside(s[0], b) && Inside(s[2], b);
  }

  /** `cv2.boundingRect` of integer points: (x, y, width, height), both extents counting the end pixel. */
  function BoundingRect(ps: seq<Point>): (r: (int, int, int, int))
    requires ps != []
    ensures r.2 >= 1 && r.3 >= 1
    ensures var b := ShapeToBox(ps); r == (b.x1, b.y1, b.x2 - b.x1 + 1, b.y2 - b.y1 + 1)
  {
    var b := ShapeToBox(ps);
    var i :| 0 <= i < |ps| && ps[i].x == b.x1;
    assert Inside(ps[i], b);
    var j :| 0 <= j < |ps| && ps[j].y == b.y1;
    assert Inside(ps[j], b);
    (b.x1, b.y1, b.x2 - b.x1 + 1, b.y2 - b.y1 + 1)
  }

  /** `pts - [x, y]` */
  function Translate(ps: seq<Point>, dx: int, dy: int): (r: seq<Point>)
    ensures |r| == |ps|
    ensures forall i :: 0 <= i < |ps| ==> r[i] == Point(ps[i].x - dx, ps[i].y - dy)
  {
    seq(|ps|, i requires 0 <= i < |ps| => Point(ps[i].x - dx, ps[i].y - dy))
  }

  /** Minus the bounding rectangle's origin, every point has non-negative coordinates
      below the rectangle's width and height. */
  lemma {:induction false} TranslateIntoRect(ps: seq<Point>)
    requires ps != []
    ensures var r := BoundingRect(ps); var t := Translate(ps, r.0, r.1);
      forall i :: 0 <= i < |t| ==> 0 <= t[i].x < r.2 && 0 <= t[i].y < r.3
  {
    var b := ShapeToBox(ps);
    assert forall i :: 0 <= i < |ps| ==> Inside(ps[i], b);
  }

  /** A value NumPy can store as `uint32`. */
  predicate IsUint32(v: int)
  {
    0 <= v < 0x1_0000_0000
  }

  /** `np.array(v, dtype=np.int32)` of a `uint32` value: two's-complement wrap-around. */
  function WrapInt32(v: int): (r: int)
    ensures -0x8000_0000 <= r < 0x8000_0000
    ensures (r - v) % 0x1_0000_0000 == 0
    ensures -0x8000_0000 <= v < 0x8000_0000 ==> r == v
  {
    (v + 0x8000_0000) % 0x1_0000_0000 - 0x8000_0000
  }

  /** One bound of a Python slice over a length-`n` axis: a negative index counts from the end; results are clamped to [0, n]. */
  function SliceIndex(n: nat, a: int): (r: nat)
    ensures r <= n
    ensures 0 <= a <= n ==> r == a
    ensures a > n ==> r == n
    ensures a < 0 ==> r == (if a + n < 0 then 0 else a + n)
  {
    if a < 0 then (if a + n < 0 then 0 else a + n) else if a > n then n else a
  }

  /** Start and length of `x[a:b]` on a length-`n` axis. */
  function SliceRange(n: nat, a: int, b: int): (r: (nat, nat))
    ensures r.0 + r.1 <= n
    ensures 0 <= a <= b <= n ==> r == (a, b - a)
  {
    var s := SliceIndex(n, a);
    var e := SliceIndex(n, b);
    if e <= s then (s, 0) else (s, e - s)
  }

  /** Arithmetic mean of the x coordinates. */
  function MeanX(ps: seq<Point>): real
    requires ps != []
  {
    SumX(ps) as real / |ps| as real
  }

  lemma {:induction false} SumXBounds(ps: seq<Point>, lo: int, hi: int)
    requires forall i :: 0 <= i < |ps| ==> lo <= ps[i].x <= hi
    ensures lo * |ps| <= SumX(ps) <= hi * |ps|
  {
    if ps != [] {
      SumXBounds(ps[1..], lo, hi);
      assert lo <= ps[0].x <= hi;
    }
  }

  /** The mean lies between any lower and upper bound of the x coordinates. */
  lemma {:induction false} MeanXBetween(ps: seq<Point>, lo: int, hi: int)
    requires ps != []
    requires forall i :: 0 <= i < |ps| ==> lo <= ps[i].x <= hi
    ensures lo as real <= MeanX(ps) <= hi as real
  {
    var s, n := SumX(ps), |ps|;
    SumXBounds(ps, lo, hi);
    var below, above := lo * n, hi * n;
    assert below as real <= s as real <= above as real;
    IntMulReal(lo, n);
    IntMulReal(hi, n);
    DivBetween(s as real, n as real, lo as real, hi as real);
    assert MeanX(ps) == s as real / n as real;
  }

  lemma {:induction false} IntMulReal(a: int, b: int)
    ensures (a * b) as real == a as real * b as real
  {
  }

  lemma {:induction false} DivBetween(s: real, n: real, lo: real, hi: real)
    requires n > 0.0 && lo * n <= s <= hi * n
    ensures lo <= s / n <= hi
  {
  }

  /** `to_center_coords` on a `points` attribute (horizontal, the only mode the constructor sets):
      no token gives `None`; tokens without one complete pair raise IndexError; otherwise the mean x. */
  function CenterX(points: string): (r: Result<Option<real>>)
    ensures SplitWs(points) == [] <==> r == Ok(None)
    ensures SplitWs(points) != [] && ParsePoints(points).Ok? && ParsePoints(points).value != [] ==>
      r == Ok(Some(MeanX(ParsePoints(points).value)))
    ensures SplitWs(points) != [] && ParsePoints(points).Ok? && ParsePoints(points).value == [] ==> r == Err(IndexOutOfRange)
    ensures SplitWs(points) != [] && ParsePoints(points).Err? ==> r == Err(ParsePoints(points).error)
  {
    var tokens := SplitWs(points);
    if tokens == [] then Ok(None)
    else
      var ns :- Numbers(points);
      var ps := Pairs(ns);
      if ps == [] then Err(IndexOutOfRange) else Ok(Some(MeanX(ps)))
  }
}
