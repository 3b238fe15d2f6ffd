/** Grayscale rasters as values, the NumPy/OpenCV array operations on them that are plain
    arithmetic, and the paper tone ("the gray") computed from their bright pixels. */
module Raster {
  import opened Common
  import opened Sorting
  import opened Geometry

  /** A row-major grayscale image: `|rows|` rows of `width` pixels each. */
  datatype Raster = Raster(width: nat, rows: seq<seq<int>>) {
    predicate Valid() { forall i :: 0 <= i < |rows| ==> |rows[i]| == width }
    function Height(): nat { |rows| }
  }

  /** Every pixel is a `uint8` value. */
  predicate IsGray(r: Raster)
  {
    r.Valid() && forall i, j :: 0 <= i < |r.rows| && 0 <= j < r.width ==> 0 <= r.rows[i][j] <= 255
  }

  /** The pixels of an array, as a value. */
  function Pixels(a: array2<int>): (r: Raster)
    reads a
    ensures r.Valid() && r.Height() == a.Length0 && r.width == a.Length1
    ensures forall i, j :: 0 <= i < a.Length0 && 0 <= j < a.Length1 ==> r.rows[i][j] == a[i, j]
  {
    Raster(a.Length1, seq(a.Length0, i requires 0 <= i < a.Length0 reads a =>
      seq(a.Length1, j requires 0 <= j < a.Length1 reads a => a[i, j])))
  }

  /** A raster of the given size whose pixel (i, j) is `f(i, j)`. */
  function Tabulate(h: nat, w: nat, f: (nat, nat) -> int): (r: Raster)
    ensures r.Valid() && r.Height() == h && r.width == w
    ensures forall i, j :: 0 <= i < h && 0 <= j < w ==> r.rows[i][j] == f(i, j)
  {
    Raster(w, seq(h, i requires 0 <= i < h => seq(w, j requires 0 <= j < w => f(i, j))))
  }

  /** Two valid rasters of the same size with the same pixels are the same raster. */
  lemma {:induction false} RasterEq(a: Raster, b: Raster)
    requires a.Valid() && b.Valid() && a.Height() == b.Height() && a.width == b.width
    requires forall i, j :: 0 <= i < a.Height() && 0 <= j < a.width ==> a.rows[i][j] == b.rows[i][j]
    ensures a == b
  {
    forall i | 0 <= i < a.Height() ensures a.rows[i] == b.rows[i] {
      assert |a.rows[i]| == |b.rows[i]|;
      forall j | 0 <= j < a.width ensures a.rows[i][j] == b.rows[i][j] {
      }
    }
  }

  /** `frame.any()`: some pixel is not zero. */
  predicate AnyNonZero(r: Raster)
  {
    exists i, j :: 0 <= i < |r.rows| && 0 <= j < |r.rows[i]| && r.rows[i][j] != 0
  }

  /** `img[a:b, c:d]` with Python's clamping of each bound. */
  function Slice2D(r: Raster, a: int, b: int, c: int, d: int): (s: Raster)
    requires r.Valid()
    ensures s.Valid()
    ensures s.Height() == SliceRange(r.Height(), a, b).1 && s.width == SliceRange(r.width, c, d).1
    ensures var (r0, _) := SliceRange(r.Height(), a, b); var (c0, _) := SliceRange(r.width, c, d);
      forall i, j :: 0 <= i < s.Height() && 0 <= j < s.width ==> s.rows[i][j] == r.rows[r0 + i][c0 + j]
  {
    var (r0, nr) := SliceRange(r.Height(), a, b);
    var (c0, nc) := SliceRange(r.width, c, d);
    Raster(nc, seq(nr, i requires 0 <= i < nr => r.rows[r0 + i][c0..c0 + nc]))
  }

  /** `copyMakeBorder(img, p, p, p, p, BORDER_CONSTANT, value=v)`. */
  function Border(r: Raster, p: nat, v: int): (s: Raster)
    requires r.Valid()
    ensures s.Valid() && s.Height() == r.Height() + 2 * p && s.width == r.width + 2 * p
    ensures forall i, j :: 0 <= i < r.Height() && 0 <= j < r.width ==> s.rows[i + p][j + p] == r.rows[i][j]
    ensures forall i, j :: 0 <= i < s.Height() && 0 <= j < s.width && !(p <= i < r.Height() + p && p <= j < r.width + p) ==> s.rows[i][j] == v
  {
    Tabulate(r.Height() + 2 * p, r.width + 2 * p,
      (i, j) => if p <= i < r.Height() + p && p <= j < r.width + p then r.rows[i - p][j - p] else v)
  }

  /** Slicing `[p:-p, p:-p]` off a border of width `p` gives the image back. */
  lemma {:induction false} BorderSliceBack(r: Raster, p: nat, v: int)
    requires r.Valid() && p > 0
    ensures Slice2D(Border(r, p, v), p, -(p as int), p, -(p as int)) == r
  {
    var s := Slice2D(Border(r, p, v), p, -(p as int), p, -(p as int));
    assert s.Height() == r.Height() && s.width == r.width;
    forall i | 0 <= i < r.Height() ensures s.rows[i] == r.rows[i] {
      assert |s.rows[i]| == |r.rows[i]|;
      forall j | 0 <= j < r.width ensures s.rows[i][j] == r.rows[i][j] {
      }
    }
  }

  /** Any image `p` pixels larger on every side comes back to the original size from `[p:-p, p:-p]`. */
  lemma {:induction false} SliceBackSize(q: Raster, h: nat, w: nat, p: nat)
    requires q.Valid() && q.Height() == h + 2 * p && q.width == w + 2 * p && p > 0
    ensures Slice2D(q, p, -(p as int), p, -(p as int)).Height() == h
    ensures Slice2D(q, p, -(p as int), p, -(p as int)).width == w
  {
  }

  /** All pixel values, row by row. */
  function Values(rows: seq<seq<int>>): seq<int>
  {
    if rows == [] then [] else rows[0] + Values(rows[1..])
  }

  /** `arr[arr > threshold]` on a flat sequence. */
  function Above(vs: seq<int>, threshold: int): (r: seq<int>)
    ensures forall i :: 0 <= i < |r| ==> r[i] > threshold
    ensures forall v :: v in vs && v > threshold ==> v in r
    ensures forall v :: v in r ==> v in vs
  {
    if vs == [] then [] else (if vs[0] > threshold then [vs[0]] else []) + Above(vs[1..], threshold)
  }

  lemma {:induction false} ValuesRange(rows: seq<seq<int>>, lo: int, hi: int)
    requires forall i, j :: 0 <= i < |rows| && 0 <= j < |rows[i]| ==> lo <= rows[i][j] <= hi
    ensures forall k :: 0 <= k < |Values(rows)| ==> lo <= Values(rows)[k] <= hi
  {
    if rows != [] {
      ValuesRange(rows[1..], lo, hi);
      var vs := Values(rows);
      forall k | 0 <= k < |vs| ensures lo <= vs[k] <= hi {
        if k < |rows[0]| {
          assert vs[k] == rows[0][k];
        } else {
          assert vs[k] == Values(rows[1..])[k - |rows[0]|];
        }
      }
    }
  }

  /** `np.median`: the middle element of the sorted values, or the mean of the two middle ones for an even count;
      `None` stands for the NaN of an empty selection. */
  function Median(vs: seq<int>): (m: Option<real>)
    ensures m.None? <==> vs == []
  {
    if vs == [] then None
    else
      var s := SortBy(vs, x => x);
      var n := |s|;
      if n % 2 == 1 then Some(s[n / 2] as real) else Some((s[n / 2 - 1] + s[n / 2]) as real / 2.0)
  }

  /** The median of values in [lo, hi] lies in [lo, hi]. */
  lemma {:induction false} MedianBounds(vs: seq<int>, lo: int, hi: int)
    requires vs != []
    requires forall k :: 0 <= k < |vs| ==> lo <= vs[k] <= hi
    ensures lo as real <= Median(vs).value <= hi as real
  {
    var s := SortBy(vs, x => x);
    forall k | 0 <= k < |s| ensures lo <= s[k] <= hi {
      assert s[k] in multiset(s);
      assert s[k] in multiset(vs);
      var i :| 0 <= i < |vs| && vs[i] == s[k];
    }
  }

  /** The median of values that are all at least `lo` is at least `lo`. */
  lemma {:induction false} MedianAtLeast(vs: seq<int>, lo: int)
    requires vs != []
    requires forall k :: 0 <= k < |vs| ==> lo <= vs[k]
    ensures lo as real <= Median(vs).value
  {
    var s := SortBy(vs, x => x);
    forall k | 0 <= k < |s| ensures lo <= s[k] {
      assert s[k] in multiset(s);
      assert s[k] in multiset(vs);
      var i :| 0 <= i < |vs| && vs[i] == s[k];
    }
  }

  /** `calc_reference`: the median of the pixels brighter than 127. */
  function CalcReference(r: Raster): (m: Option<real>)
    ensures m.Some? ==> 128.0 <= m.value
    ensures IsGray(r) && m.Some? ==> m.value <= 255.0
    ensures m.None? <==> Above(Values(r.rows), 127) == []
  {
    var bright := Above(Values(r.rows), 127);
    assert IsGray(r) && bright != [] ==> 128.0 <= Median(bright).value <= 255.0 by {
      if IsGray(r) && bright != [] {
        ValuesRange(r.rows, 0, 255);
        forall k | 0 <= k < |bright| ensures 128 <= bright[k] <= 255 {
          assert bright[k] in Values(r.rows);
        }
        MedianBounds(bright, 128, 255);
      }
    }
    assert bright != [] ==> 128.0 <= Median(bright).value by {
      if bright != [] {
        MedianAtLeast(bright, 128);
      }
    }
    Median(bright)
  }

  /** The gray band `(low, high, mean)` of `calculate_grayscale`. */
  datatype Band = Band(low: int, high: int, mid: int)

  /** `calculate_grayscale(low, neighbourhood, in_data)`. Without data the band is fixed; an image without rows
      yields `None`; an image without any bright pixel fails in `int()` of NaN. */
  function CalculateGrayscale(low: int, neighbourhood: int, data: Option<Raster>): (r: Result<Option<Band>>)
    ensures data.None? ==> r == Ok(Some(Band(low, low + neighbourhood, low + Trunc(neighbourhood as real / 2.0))))
    ensures data.Some? && data.value.Height() == 0 ==> r == Ok(None)
    ensures data.Some? && data.value.Height() > 0 ==> (r.Err? <==> CalcReference(data.value).None?)
    ensures r.Err? ==> r.error == NanToInt
    ensures r.Ok? && r.value.Some? ==> r.value.value.mid == r.value.value.low + Trunc(neighbourhood as real / 2.0)
  {
    var nbCenter := Trunc(neighbourhood as real / 2.0);
    match data
    case None => Ok(Some(Band(low, low + neighbourhood, low + nbCenter)))
    case Some(img) =>
      if img.Height() > 0 then
        match CalcReference(img)
        case None => Err(NanToInt)
        case Some(ref) =>
          var theLow := Trunc(ref - nbCenter as real);
          var theHigh := Trunc(ref + nbCenter as real);
          Ok(Some(Band(theLow, theHigh, theLow + nbCenter)))
      else Ok(None)
  }

  lemma {:induction false} FloorShift(x: real, k: int)
    ensures (x + k as real).Floor == x.Floor + k
  {
  }

  /** With image data and `nb` in [0, 256] the band is `int(ref - nb/2)` to `int(ref + nb/2)`, exactly
      `2 * (nb/2)` wide, and its paper tone `mid` is at least 128 (at most 255 on a `uint8` image). */
  lemma {:induction false} GrayscaleBand(r: Raster, neighbourhood: int)
    requires r.Height() > 0 && 0 <= neighbourhood <= 256
    requires CalcReference(r).Some?
    ensures var g := CalculateGrayscale(168, neighbourhood, Some(r));
      var nbc := neighbourhood / 2;
      var ref := CalcReference(r).value;
      g.Ok? && g.value.Some? &&
      g.value.value.low == (ref - nbc as real).Floor &&
      g.value.value.high == g.value.value.low + 2 * nbc &&
      g.value.value.mid == g.value.value.low + nbc &&
      128 <= g.value.value.mid &&
      (IsGray(r) ==> g.value.value.mid <= 255)
  {
    var ref := CalcReference(r).value;
    var nbc := Trunc(neighbourhood as real / 2.0);
    assert nbc == neighbourhood / 2;
    FloorShift(ref - nbc as real, 2 * nbc);
    assert ref - nbc as real + (2 * nbc) as real == ref + nbc as real;
    FloorShift(ref - nbc as real, nbc);
    assert ref - nbc as real + nbc as real == ref;
  }

  /** `add_padding(img, p)`: a constant border of width `p` in the paper tone `int(ref - 16) + 16` that
      `calculate_grayscale` yields for the image; an image without rows or without bright pixels fails. */
  function AddPadding(img: Raster, p: nat): (r: Result<Raster>)
    requires img.Valid()
    ensures r.Ok? ==> CalcReference(img).Some? && exists tone: int :: r.value == Border(img, p, tone) && tone == Trunc(CalcReference(img).value - 16.0) + 16
    ensures r.Err? <==> img.Height() == 0 || CalcReference(img).None?
    ensures img.Height() == 0 ==> r == Err(UnpackNone)
    ensures img.Height() > 0 && CalcReference(img).None? ==> r == Err(NanToInt)
  {
    if img.Height() == 0 then Err(UnpackNone)
    else if CalcReference(img).None? then Err(NanToInt)
    else
      var tone := Trunc(CalcReference(img).value - 16.0) + 16;
      Ok(Border(img, p, tone))
  }

  /** The tone of `add_padding` is the `mid` of the band `calculate_grayscale` computes for neighbourhood 32,
      and on a `uint8` image with bright pixels it is a bright `uint8` value. */
  lemma {:induction false} AddPaddingTone(img: Raster)
    requires img.Valid() && img.Height() > 0 && CalcReference(img).Some?
    ensures var tone := Trunc(CalcReference(img).value - 16.0) + 16;
      CalculateGrayscale(168, 32, Some(img)) == Ok(Some(Band(tone - 16, tone + 16, tone))) &&
      128 <= tone && (IsGray(img) ==> tone <= 255)
  {
    var ref := CalcReference(img).value;
    GrayscaleBand(img, 32);
    var g := CalculateGrayscale(168, 32, Some(img));
    var tone := Trunc(ref - 16.0) + 16;
    assert g.value.value.low == (ref - 16.0).Floor;
    assert Trunc(ref - 16.0) == (ref - 16.0).Floor;
    assert g.value.value == Band(tone - 16, tone + 16, tone);
  }

  /** An `h` by `w` canvas of draws `start + noise(i, j) % span`, cast to `uint8`. */
  function Draws(h: nat, w: nat, start: int, span: int, noise: (nat, nat) -> nat): (c: Raster)
    requires span > 0
    ensures IsGray(c) && c.Height() == h && c.width == w
    ensures 0 <= start && start + span <= 256 ==> forall i, j :: 0 <= i < h && 0 <= j < w ==> start <= c.rows[i][j] < start + span
  {
    var c := Tabulate(h, w, (i: nat, j: nat) => (start + noise(i, j) % span) % 256);
    assert 0 <= start && start + span <= 256 ==> forall i, j :: 0 <= i < h && 0 <= j < w ==> start <= c.rows[i][j] < start + span by {
      if 0 <= start && start + span <= 256 {
        forall i, j | 0 <= i < h && 0 <= j < w ensures start <= c.rows[i][j] < start + span {
          DrawInBand(start, span, noise(i, j));
        }
      }
    }
    c
  }

  /** A draw `start + n % span` that stays below 256 survives the `uint8` cast unchanged. */
  lemma {:induction false} DrawInBand(start: int, span: int, n: nat)
    requires span > 0 && 0 <= start && start + span <= 256
    ensures start <= (start + n % span) % 256 < start + span
  {
  }

  /** `gray_canvas(w, h, in_data=img)`: an `h` by `w` canvas of `uint8` values drawn from `[start, end)`, the
      band `calculate_grayscale` yields for neighbourhood 8; `noise` stands for the random draws. Values that
      reach 256 wrap, as `astype(np.uint8)` does. */
  function GrayCanvas(w: int, h: int, img: Raster, noise: (nat, nat) -> nat): (r: Result<Raster>)
    ensures r.Ok? ==> w >= 0 && h >= 0 && IsGray(r.value) && r.value.Height() == h && r.value.width == w
    ensures r.Err? <==> w < 0 || h < 0 || img.Height() == 0 || CalcReference(img).None?
    ensures img.Height() == 0 ==> r == Err(UnpackNone)
    ensures img.Height() > 0 && CalcReference(img).None? ==> r == Err(NanToInt)
    ensures img.Height() > 0 && CalcReference(img).Some? && (w < 0 || h < 0) ==> r == Err(RandintRange)
    ensures r.Ok? ==> var lo := Trunc(CalcReference(img).value - 4.0);
      lo + 8 <= 256 ==> forall i, j :: 0 <= i < h && 0 <= j < w ==> lo <= r.value.rows[i][j] < lo + 8
  {
    if img.Height() == 0 then Err(UnpackNone)
    else if CalcReference(img).None? then Err(NanToInt)
    else
      var ref := CalcReference(img).value;
      var start := Trunc(ref - 4.0);
      var end := Trunc(ref + 4.0);
      FloorShift(ref - 4.0, 8);
      assert ref - 4.0 + 8.0 == ref + 4.0;
      if w < 0 || h < 0 || end <= start then Err(RandintRange)
      else Ok(Draws(h, w, start, end - start, noise))
  }

  /** The band `gray_canvas` draws from is the one `calculate_grayscale` yields for neighbourhood 8. */
  lemma {:induction false} GrayCanvasBand(img: Raster)
    requires img.Height() > 0 && CalcReference(img).Some?
    ensures var ref := CalcReference(img).value;
      CalculateGrayscale(168, 8, Some(img)) == Ok(Some(Band(Trunc(ref - 4.0), Trunc(ref + 4.0), Trunc(ref - 4.0) + 4)))
  {
    var ref := CalcReference(img).value;
    GrayscaleBand(img, 8);
    var g := CalculateGrayscale(168, 8, Some(img));
    var lo := (ref - 4.0).Floor;
    assert g.value.value.low == lo;
    TruncBand(ref);
    assert g.value.value == Band(lo, lo + 8, lo + 4);
  }

  /** Around a reference whose band starts at 124 or above, truncation and floor agree on both edges. */
  lemma {:induction false} TruncBand(ref: real)
    requires (ref - 4.0).Floor >= 124
    ensures Trunc(ref - 4.0) == (ref - 4.0).Floor && Trunc(ref + 4.0) == (ref - 4.0).Floor + 8
  {
    var lo := (ref - 4.0).Floor;
    FloorShift(ref - 4.0, 8);
    assert ref - 4.0 + 8 as real == ref + 4.0;
    assert lo as real <= ref - 4.0;
  }
}
