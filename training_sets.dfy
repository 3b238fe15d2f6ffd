/** The `TrainingSets` object: it names the output of one OCR document, cuts each of its lines out of the
    page image and writes text-image pairs and an optional summary. The file system is the object's
    record of directories and written files; standard output is a list of printed lines. */
module Training {
  import opened Common
  import opened Text
  import opened Seqs
  import opened Paths
  import opened Geometry
  import opened Raster
  import opened Vision
  import opened Sanitize
  import opened Ocr
  import opened Lines

  const DefaultDpi: int := 300
  const DefaultMinChars: int := 1
  const SuffixSummary: string := "_summary.gt.txt"
  const SuffixGtText: string := ".gt.txt"
  const SuffixGtImage: string := ".tif"

  /** OpenCV's `IMWRITE_TIFF_RESUNIT`, `IMWRITE_TIFF_XDPI` and `IMWRITE_TIFF_YDPI`; resolution unit 2 is inches. */
  const TiffResUnit: int := 256
  const TiffXDpi: int := 257
  const TiffYDpi: int := 258

  /** A written file: a text, or an image with the parameters given to `imwrite`. */
  datatype OutFile = TextFile(text: string) | ImageFile(pixels: Raster, params: seq<int>)

  /** What the image readers report: whether `exifread` found any tag, the numerators of the two
      resolution tags, and PIL's `info['dpi']`. */
  datatype ImageMeta = ImageMeta(hasTags: bool, xResolution: Option<int>, yResolution: Option<int>,
                                 pilDpi: Option<(real, real)>)

  // ---------------------------------------------------------------- dpi

  /** `read_dpi_from_tif`: both resolutions present and non-zero give the x resolution twice. */
  function ReadDpiFromTif(meta: ImageMeta): (r: (int, int))
    ensures r.0 == r.1
    ensures r != (DefaultDpi, DefaultDpi) ==> meta.hasTags && meta.xResolution == Some(r.0) && r.0 != 0 &&
                                              meta.yResolution.Some? && meta.yResolution.value != 0
  {
    if meta.hasTags && meta.xResolution.Some? && meta.yResolution.Some? &&
       meta.xResolution.value != 0 && meta.yResolution.value != 0
    then (meta.xResolution.value, meta.xResolution.value)
    else (DefaultDpi, DefaultDpi)
  }

  /** `read_dpi`: the reader is chosen by the path's suffix; anything else gets the default. */
  function ReadDpi(path: string, meta: ImageMeta): (r: (int, int))
    ensures IsSuffix(".tif", path) ==> r == ReadDpiFromTif(meta)
    ensures !IsSuffix(".tif", path) && !IsSuffix(".jpg", path) && !IsSuffix(".png", path) ==> r == (DefaultDpi, DefaultDpi)
    ensures !IsSuffix(".tif", path) && (IsSuffix(".jpg", path) || IsSuffix(".png", path)) ==>
      r == if meta.pilDpi.Some? then (Trunc(meta.pilDpi.value.0), Trunc(meta.pilDpi.value.1)) else (DefaultDpi, DefaultDpi)
  {
    if IsSuffix(".tif", path) then ReadDpiFromTif(meta)
    else if (IsSuffix(".jpg", path) || IsSuffix(".png", path)) && meta.pilDpi.Some? then
      (Trunc(meta.pilDpi.value.0), Trunc(meta.pilDpi.value.1))
    else (DefaultDpi, DefaultDpi)
  }

  /** The TIFF reader ignores the y resolution whenever it uses the tags. */
  lemma {:induction false} TifDpiIgnoresY(meta: ImageMeta, y: int)
    requires meta.hasTags && meta.xResolution.Some? && meta.xResolution.value != 0 && y != 0
    ensures ReadDpiFromTif(meta.(yResolution := Some(y))) == (meta.xResolution.value, meta.xResolution.value)
  {
  }

  /** `_calculate_tiff_param`: resolution parameters only when both dpi values are non-zero. */
  function TiffParams(xdpi: int, ydpi: int): (r: seq<int>)
    ensures r != [] <==> xdpi != 0 && ydpi != 0
    ensures r != [] ==> |r| == 6 && r[1] == 2 && r[3] == xdpi && r[5] == ydpi
  {
    if xdpi != 0 && ydpi != 0 then [TiffResUnit, 2, TiffXDpi, xdpi, TiffYDpi, ydpi] else []
  }

  // ---------------------------------------------------------------- naming

  /** A numeric stem becomes `tag` followed by its integer value; any other stem stays. */
  function NumericLabel(stem: string, tag: string): (r: string)
    ensures IsNumeric(stem) ==> r == tag + NatToString(DigitsValue(stem))
    ensures !IsNumeric(stem) ==> r == stem
  {
    if IsNumeric(stem) then tag + NatToString(DigitsValue(stem)) else stem
  }

  /** What `pair_prefix` computes when nothing is cached: the document's stem, a numeric stem as `page<n>`. */
  function DocPrefix(pathOcrData: string): string
  {
    NumericLabel(Stem(pathOcrData), "page")
  }

  /** The data label of the pair names: the document's stem, a numeric stem as `p<n>`. */
  function DataTag(pathOcrData: string): string
  {
    NumericLabel(Stem(pathOcrData), "p")
  }

  /** The `pair_prefix` property: the cached value, or else `fallback`, the prefix computed from the document. */
  function PrefixOf(cache: Option<string>, fallback: string): string
  {
    if cache.Some? then cache.value else fallback
  }

  /** `<prefix>_<label>_<id><suffix>` */
  function PairName(prefix: string, tag: string, id: string, suffix: string): string
  {
    prefix + "_" + tag + "_" + id + suffix
  }

  /** The directory of a document's pairs, and the text and image paths of one line inside it. */
  function PairPaths(outputDir: string, prefix: string, dataTag: string, id: string): (string, string, string)
  {
    var dir := PathJoin(outputDir, prefix);
    (dir, PathJoin(dir, PairName(prefix, dataTag, id, SuffixGtText)), PathJoin(dir, PairName(prefix, dataTag, id, SuffixGtImage)))
  }

  /** A numeric document stem `n` gives the prefix `page<n>` and the label `p<n>`; the two pair files of a line
      differ only in their suffix and lie in `<output>/<prefix>`. */
  lemma {:induction false} PairPathsNumeric(outputDir: string, pathOcrData: string, id: string)
    requires IsNumeric(Stem(pathOcrData)) && outputDir != [] && outputDir[|outputDir| - 1] != '/'
    ensures var n := NatToString(DigitsValue(Stem(pathOcrData)));
      var prefix := DocPrefix(pathOcrData);
      var paths := PairPaths(outputDir, prefix, DataTag(pathOcrData), id);
      prefix == "page" + n &&
      paths.0 == outputDir + "/" + prefix &&
      paths.1 == paths.0 + "/" + (prefix + "_p" + n + "_" + id + ".gt.txt") &&
      paths.2 == paths.0 + "/" + (prefix + "_p" + n + "_" + id + ".tif")
  {
    var n := NatToString(DigitsValue(Stem(pathOcrData)));
    var prefix := "page" + n;
    JoinRelative(outputDir, prefix);
    var dir := outputDir + "/" + prefix;
    LabelConcat(prefix, n);
    JoinRelative(dir, PairName(prefix, "p" + n, id, SuffixGtText));
    JoinRelative(dir, PairName(prefix, "p" + n, id, SuffixGtImage));
  }

  lemma {:induction false} LabelConcat(prefix: string, n: string)
    ensures prefix + "_" + ("p" + n) == prefix + "_p" + n
  {
    assert "_" + "p" == "_p";
    assert prefix + "_" + ("p" + n) == prefix + ("_" + "p") + n;
  }

  /** Joining a relative name `b` onto a directory `a` without a trailing `/` puts one `/` between them, and
      the result ends as `b` ends. */
  lemma {:induction false} JoinRelative(a: string, b: string)
    requires a != [] && a[|a| - 1] != '/' && b != [] && b[0] != '/'
    ensures PathJoin(a, b) == a + "/" + b
    ensures PathJoin(a, b)[|PathJoin(a, b)| - 1] == b[|b| - 1]
  {
    assert !IsAbsolute(b);
  }

  // ---------------------------------------------------------------- image path

  /** `resolve_image_path`: for PAGE, the `imageFilename` relative to the OCR file's grandparent directory
      (the OCR-D workspace), which must exist; for ALTO nothing. A PAGE document without a `Page` element
      fails with the AttributeError of reading `attrib` on `None`; an empty `imageFilename` gives `None`. */
  function ResolveImagePath(pathXml: string, doc: Document, onDisk: string -> bool): (r: Result<Option<string>>)
    ensures Lookup(XmlNs, doc.uri).Err? ==> r == Err(UnregisteredNamespace(doc.uri))
    ensures r.Ok? && r.value.Some? ==>
      (doc.imageFilename.Some? && doc.imageFilename.value != "" &&
       r.value.value == PathJoin(Parent(Parent(pathXml)), doc.imageFilename.value) && onDisk(r.value.value))
    ensures r.Err? && r.error.InvalidImagePath? ==>
      (doc.imageFilename.Some? && !onDisk(r.error.path) &&
       r.error.path == PathJoin(Parent(Parent(pathXml)), doc.imageFilename.value))
  {
    var prefix :- Lookup(XmlNs, doc.uri);
    if IsPagePrefix(prefix) then
      if doc.imageFilename.None? then Err(MissingValue)
      else if doc.imageFilename.value == "" then Ok(None)
      else
        var path := PathJoin(Parent(Parent(pathXml)), doc.imageFilename.value);
        if !onDisk(path) then Err(InvalidImagePath(path)) else Ok(Some(path))
    else Ok(None)
  }

  /** The workspace is the OCR file's path without its last two components. */
  lemma {:induction false} ResolveImagePathWorkspace(pathXml: string, doc: Document, onDisk: string -> bool)
    requires ResolveImagePath(pathXml, doc, onDisk).Ok? && ResolveImagePath(pathXml, doc, onDisk).value.Some?
    ensures var ps := Parts(pathXml);
      ResolveImagePath(pathXml, doc, onDisk).value.value ==
        PathJoin(PathString(IsAbsolute(pathXml), if |ps| < 2 then [] else ps[..|ps| - 2]), doc.imageFilename.value)
  {
    GrandparentParts(pathXml);
  }

  // ---------------------------------------------------------------- one pair

  /** The keyword arguments `create` passes on to `write_pair`; `noise` stands for NumPy's random generator. */
  datatype PairOptions = PairOptions(sanitize: bool, ratio: Ratio, threshold: real, binarize: bool, padding: int,
                                     noise: (nat, nat) -> nat)

  /** `create`'s defaults: sanitising with intrusion ratio 0.125 and rotation threshold 0.1, neither binarising
      nor padding. */
  function DefaultOptions(noise: (nat, nat) -> nat): (o: PairOptions)
    ensures o.sanitize && !o.binarize && o.padding == 0
  {
    PairOptions(true, Scalar(CreateIntrusionRatio), DefaultRotationThreshold, false, 0, noise)
  }

  /** The image `write_pair` writes for a line of the given content: the crop of the line's box, sanitised
      and binarised on request; `None` when the content is empty or the crop is black. */
  function ImagePlan(cv: Cv, page: Raster, shape: seq<Point>, content: string, o: PairOptions): Result<Option<Raster>>
    requires page.Valid()
  {
    var box :- CropBox(cv, shape);
    var crop := Crop(page, box);
    if content != "" && AnyNonZero(crop) then
      var img :- if o.sanitize then SanitizeSpec(cv, crop, shape, o.ratio, o.threshold, o.padding, o.noise) else Ok(crop);
      Ok(Some(if o.binarize then Binarize(cv, img) else img))
    else Ok(None)
  }

  /** An image is planned exactly when the content is non-empty and the crop of the line's box has a
      non-zero pixel; it is the crop itself, its binarisation, or what sanitising makes of it. */
  lemma {:induction false} ImagePlanWritten(cv: Cv, page: Raster, shape: seq<Point>, content: string, o: PairOptions)
    requires page.Valid()
    ensures var r := ImagePlan(cv, page, shape, content, o);
      (CropBox(cv, shape).Err? ==> r == Err(CropBox(cv, shape).error)) &&
      (CropBox(cv, shape).Ok? && (content == "" || !AnyNonZero(Crop(page, CropBox(cv, shape).value))) ==> r == Ok(None))
    ensures var r := ImagePlan(cv, page, shape, content, o);
      CropBox(cv, shape).Ok? && content != "" && AnyNonZero(Crop(page, CropBox(cv, shape).value)) ==>
        var crop := Crop(page, CropBox(cv, shape).value);
        var s := SanitizeSpec(cv, crop, shape, o.ratio, o.threshold, o.padding, o.noise);
        (!o.sanitize && !o.binarize ==> r == Ok(Some(crop))) &&
        (!o.sanitize && o.binarize ==> r == Ok(Some(Binarize(cv, crop)))) &&
        (o.sanitize && s.Err? ==> r == Err(s.error)) &&
        (o.sanitize && s.Ok? ==> r == Ok(Some(if o.binarize then Binarize(cv, s.value) else s.value)))
  {
  }

  /** What `write_pair` decides for a line: its content and the image to write, `None` when nothing is
      written, or the error raised on the way. */
  function PairPlan(cv: Cv, page: Raster, line: TextLine, o: PairOptions): Result<Option<(string, Raster)>>
    requires page.Valid()
  {
    var content :- Content(line);
    var img :- ImagePlan(cv, page, line.shape, content, o);
    if img.Some? then Ok(Some((content, img.value))) else Ok(None)
  }

  /** The message of the `ExtractPairException`. */
  function ExtractPairMessage(gtPath: string, imgPath: string, line: TextLine, content: string): string
  {
    "Can't extract pair " + gtPath + "/" + imgPath + " for " + Repr(line, content)
  }

  /** How `write_pair` ends for a line whose text and image paths are `paths.1` and `paths.2`. */
  function PairResult(cv: Cv, page: Raster, paths: (string, string, string), line: TextLine, o: PairOptions): Result<()>
    requires page.Valid()
  {
    var plan := PairPlan(cv, page, line, o);
    if plan.Err? then Err(plan.error)
    else if plan.value.None? then Err(ExtractPair(ExtractPairMessage(paths.1, paths.2, line, Content(line).value)))
    else Ok(())
  }

  /** A line whose content fails raises that error; a line with text whose crop is black, or with no text,
      raises `ExtractPairException`; a line with text and a non-black crop is written when it is not
      sanitised. */
  lemma {:induction false} PairResultCases(cv: Cv, page: Raster, paths: (string, string, string), line: TextLine, o: PairOptions)
    requires page.Valid()
    ensures var r := PairResult(cv, page, paths, line, o);
      (Content(line).Err? ==> r == Err(EmptyReduce)) &&
      (Content(line).Ok? && CropBox(cv, line.shape).Err? ==> r == Err(IndexOutOfRange))
    ensures var r := PairResult(cv, page, paths, line, o);
      Content(line).Ok? && CropBox(cv, line.shape).Ok? ==>
        var crop := Crop(page, CropBox(cv, line.shape).value);
        (Content(line).value == "" || !AnyNonZero(crop) ==>
           r == Err(ExtractPair(ExtractPairMessage(paths.1, paths.2, line, Content(line).value)))) &&
        (Content(line).value != "" && AnyNonZero(crop) && !o.sanitize ==> r == Ok(()))
  {
    if Content(line).Ok? {
      ImagePlanWritten(cv, page, line.shape, Content(line).value, o);
    }
  }

  /** The image part of `write_pair`: the crop is a new array, which sanitising changes in place. */
  method LineImage(cv: Cv, page: array2<int>, ghost pixels: Raster, shape: seq<Point>, content: string, o: PairOptions)
    returns (r: Result<Option<Raster>>)
    requires Pixels(page) == pixels
    ensures r == ImagePlan(cv, pixels, shape, content, o)
  {
    var frame := ExtractRectangularFrame(cv, page, shape);
    if frame.Err? {
      return Err(frame.error);
    }
    if content != "" && AnyNonZero(Pixels(frame.value)) {
      var img := Pixels(frame.value);
      if o.sanitize {
        var s := SanitizeFrame(cv, frame.value, shape, o.ratio, o.threshold, o.padding, o.noise);
        if s.Err? {
          return Err(s.error);
        }
        img := s.value;
      }
      if o.binarize {
        img := Binarize(cv, img);
      }
      r := Ok(Some(img));
    } else {
      r := Ok(None);
    }
  }

  // ---------------------------------------------------------------- a run of create

  /** The line `create` prints for a swallowed `ExtractPairException`. */
  function ErrorLine(message: string, id: string): string
  {
    "[ERROR] " + message + "' for " + id
  }

  /** A printed error line starts with the `[ERROR] ` tag. */
  lemma {:induction false} ErrorLineTagged(message: string, id: string)
    ensures IsPrefix("[ERROR] ", ErrorLine(message, id))
  {
    var r := ErrorLine(message, id);
    assert r[..8] == "[ERROR] ";
  }

  /** Every line is an `[ERROR]` line. */
  predicate ErrorLines(ls: seq<string>)
  {
    forall k :: 0 <= k < |ls| ==> IsPrefix("[ERROR] ", ls[k])
  }

  lemma {:induction false} ErrorLinesAppend(a: seq<string>, b: seq<string>)
    requires ErrorLines(a) && ErrorLines(b)
    ensures ErrorLines(a + b)
  {
    forall k | 0 <= k < |a + b| ensures IsPrefix("[ERROR] ", (a + b)[k]) {
      if k >= |a| {
        assert (a + b)[k] == b[k - |a|];
      } else {
        assert (a + b)[k] == a[k];
      }
    }
  }

  lemma {:induction false} AppendAssoc(a: seq<string>, b: seq<string>, c: seq<string>)
    ensures (a + b) + c == a + (b + c)
  {
  }

  /** What the `try` around one `write_pair` prints: the message of a caught `ExtractPairException`. */
  function Printed(w: Result<()>, id: string): (r: seq<string>)
    ensures |r| <= 1
    ensures r != [] <==> w.Err? && w.error.ExtractPair?
  {
    if w.Err? && w.error.ExtractPair? then [ErrorLine(w.error.message, id)] else []
  }

  /** What one turn prints is an `[ERROR]` line. */
  lemma {:induction false} PrintedLog(w: Result<()>, id: string)
    ensures ErrorLines(Printed(w, id))
  {
    if w.Err? && w.error.ExtractPair? {
      assert Printed(w, id)[0] == ErrorLine(w.error.message, id);
      ErrorLineTagged(w.error.message, id);
    }
  }

  /** The error that escapes the `try`: anything but an `ExtractPairException`. */
  function Escaped(w: Result<()>): (r: Option<Error>)
    ensures r.Some? <==> w.Err? && !w.error.ExtractPair?
    ensures r.Some? ==> r.value == w.error
  {
    if w.Err? && !w.error.ExtractPair? then Some(w.error) else None
  }

  /** How `write_pair` ends for each line, with the line's id. */
  function Outcomes(cv: Cv, page: Raster, outputDir: string, prefix: string, dataTag: string, o: PairOptions,
                    lines: seq<TextLine>): (r: seq<(Result<()>, string)>)
    requires page.Valid()
    ensures |r| == |lines|
    ensures forall i :: 0 <= i < |lines| ==>
      r[i] == (PairResult(cv, page, PairPaths(outputDir, prefix, dataTag, lines[i].id), lines[i], o), lines[i].id)
  {
    Seqs.Map(lines, (t: TextLine) => (PairResult(cv, page, PairPaths(outputDir, prefix, dataTag, t.id), t, o), t.id))
  }

  /** `steps` are the outcomes of `write_pair` for `lines`, in order, each with its line's id. The quantifier
      fires only on an outcome being computed, so a proof that merely passes the outcomes along does not
      compute any. */
  ghost predicate Stepped(cv: Cv, page: Raster, outputDir: string, prefix: string, dataTag: string, o: PairOptions,
                          lines: seq<TextLine>, steps: seq<(Result<()>, string)>)
    requires page.Valid()
  {
    |steps| == |lines| &&
    (forall k :: 0 <= k < |lines| ==> steps[k].1 == lines[k].id) &&
    forall k {:trigger PairResult(cv, page, PairPaths(outputDir, prefix, dataTag, lines[k].id), lines[k], o)} ::
      0 <= k < |lines| ==> steps[k].0 == PairResult(cv, page, PairPaths(outputDir, prefix, dataTag, lines[k].id), lines[k], o)
  }

  /** The loop of `create` over the outcomes of its lines: what it prints, and the error that ends it early,
      if any. An extraction failure is printed and the loop goes on; any other error stops it. */
  function Run(steps: seq<(Result<()>, string)>): (seq<string>, Option<Error>)
  {
    if steps == [] then ([], None)
    else if Escaped(steps[0].0).Some? then ([], Escaped(steps[0].0))
    else
      var rest := Run(steps[1..]);
      (Printed(steps[0].0, steps[0].1) + rest.0, rest.1)
  }

  /** The loop from its `i`-th turn on, indexing `steps` instead of slicing it. */
  function RunFrom(steps: seq<(Result<()>, string)>, i: nat): (seq<string>, Option<Error>)
    requires i <= |steps|
    decreases |steps| - i
  {
    if i == |steps| then ([], None)
    else if Escaped(steps[i].0).Some? then ([], Escaped(steps[i].0))
    else
      var rest := RunFrom(steps, i + 1);
      (Printed(steps[i].0, steps[i].1) + rest.0, rest.1)
  }

  /** Run from its first turn, the loop is the whole run. */
  lemma {:induction false} RunFromStart(steps: seq<(Result<()>, string)>)
    ensures RunFrom(steps, 0) == Run(steps)
  {
    RunFromSuffix(steps, 0);
    assert steps[0..] == steps;
  }

  /** From its `i`-th turn on, the loop does what it does on the steps that are left. */
  lemma {:induction false} RunFromSuffix(steps: seq<(Result<()>, string)>, i: nat)
    requires i <= |steps|
    ensures RunFrom(steps, i) == Run(steps[i..])
    decreases |steps| - i
  {
    if i < |steps| {
      RunFromSuffix(steps, i + 1);
      assert steps[i..][0] == steps[i] && steps[i..][1..] == steps[i + 1..];
    }
  }

  /** Every printed line is an `[ERROR]` line, and there is at most one per text line. */
  lemma {:induction false} RunLog(steps: seq<(Result<()>, string)>)
    ensures |Run(steps).0| <= |steps| && ErrorLines(Run(steps).0)
  {
    if steps != [] {
      RunLog(steps[1..]);
      PrintedLog(steps[0].0, steps[0].1);
      ErrorLinesAppend(Printed(steps[0].0, steps[0].1), Run(steps[1..]).0);
    }
  }

  /** Nothing is printed and nothing stops the loop exactly when every pair is written. */
  lemma {:induction false} RunQuiet(steps: seq<(Result<()>, string)>)
    ensures Run(steps) == ([], None) <==> forall i :: 0 <= i < |steps| ==> steps[i].0.Ok?
  {
    if steps != [] {
      RunQuiet(steps[1..]);
      if steps[0].0.Ok? {
        assert Printed(steps[0].0, steps[0].1) + Run(steps[1..]).0 == Run(steps[1..]).0;
      }
      assert Run(steps) == ([], None) <==> steps[0].0.Ok? && Run(steps[1..]) == ([], None);
      assert (forall i :: 0 <= i < |steps| ==> steps[i].0.Ok?) <==>
        steps[0].0.Ok? && forall i :: 0 <= i < |steps[1..]| ==> steps[1..][i].0.Ok?
      by {
        assert forall i :: 0 < i < |steps| ==> steps[i] == steps[1..][i - 1];
      }
    }
  }

  /** The loop stops at the first line whose pair fails with an error other than an extraction failure. */
  lemma {:induction false} RunStopsAtFirst(steps: seq<(Result<()>, string)>)
    ensures Run(steps).1.Some? <==> exists i :: 0 <= i < |steps| && Escaped(steps[i].0).Some?
    ensures Run(steps).1.Some? ==> exists i :: (0 <= i < |steps| && Run(steps).1 == Escaped(steps[i].0) &&
      forall j :: 0 <= j < i ==> Escaped(steps[j].0).None?)
  {
    if steps != [] {
      RunStopsAtFirst(steps[1..]);
      if Escaped(steps[0].0).None? {
        if Run(steps).1.Some? {
          var i :| 0 <= i < |steps[1..]| && Run(steps[1..]).1 == Escaped(steps[1..][i].0) &&
            forall j :: 0 <= j < i ==> Escaped(steps[1..][j].0).None?;
          assert steps[i + 1] == steps[1..][i];
          forall j | 0 <= j < i + 1 ensures Escaped(steps[j].0).None? {
            if j > 0 {
              assert steps[j] == steps[1..][j - 1];
            }
          }
        }
        if exists i :: 0 <= i < |steps| && Escaped(steps[i].0).Some? {
          var i :| 0 <= i < |steps| && Escaped(steps[i].0).Some?;
          assert steps[1..][i - 1] == steps[i];
        }
      }
    }
  }

  /** A loop that ran to its end met no content error, so the summary can be written: a line whose content
      fails raises that error, which escapes. */
  lemma {:induction false} RunCompleteContents(cv: Cv, page: Raster, outputDir: string, prefix: string,
                            dataTag: string, o: PairOptions, lines: seq<TextLine>)
    requires page.Valid()
    requires Run(Outcomes(cv, page, outputDir, prefix, dataTag, o, lines)).1.None?
    ensures forall i :: 0 <= i < |lines| ==> Content(lines[i]).Ok?
  {
    var steps := Outcomes(cv, page, outputDir, prefix, dataTag, o, lines);
    RunStopsAtFirst(steps);
    forall i | 0 <= i < |lines| ensures Content(lines[i]).Ok? {
      assert Escaped(steps[i].0).None?;
    }
  }

  /** The text `write_summary` writes: each line's content followed by a newline. */
  function SummaryText(lines: seq<TextLine>): (r: Result<string>)
    ensures r.Ok? <==> forall i :: 0 <= i < |lines| ==> Content(lines[i]).Ok?
    ensures lines == [] ==> r == Ok("")
  {
    var contents :- Collect(lines, (t: TextLine) => var c :- Content(t); Ok(c + "\n"));
    Ok(Join(contents, ""))
  }

  /** Each content contributes itself and one newline. */
  lemma {:induction false} SummaryTextLength(lines: seq<TextLine>)
    requires SummaryText(lines).Ok?
    ensures |SummaryText(lines).value| == SumLen(Seqs.Map(lines, (t: TextLine) => if Content(t).Ok? then Content(t).value else "")) + |lines|
  {
    var f := (t: TextLine) => var c :- Content(t); Ok(c + "\n");
    var g := (t: TextLine) => if Content(t).Ok? then Content(t).value else "";
    var cs := Collect(lines, f).value;
    var ws := Seqs.Map(lines, g);
    forall i | 0 <= i < |ws| ensures cs[i] == ws[i] + "\n" {
      assert f(lines[i]) == Ok(cs[i]);
    }
    SumLenNewlines(cs, ws);
    JoinLength(cs, "");
  }

  // ---------------------------------------------------------------- the files the loop writes

  /** Where the pairs of one run go: the output directory, the prefix, the data label, and the TIFF
      parameters every image of the run is written with. */
  datatype PairTarget = PairTarget(outputDir: string, prefix: string, dataTag: string, params: seq<int>)

  /** The plan of each line, in order. */
  function Plans(cv: Cv, page: Raster, o: PairOptions, lines: seq<TextLine>): (r: seq<Result<Option<(string, Raster)>>>)
    requires page.Valid()
    ensures |r| == |lines| && forall i :: 0 <= i < |lines| ==> r[i] == PairPlan(cv, page, lines[i], o)
  {
    Seqs.Map(lines, (t: TextLine) => PairPlan(cv, page, t, o))
  }

  /** `plans` are the plans of `lines`; as with `Stepped`, the quantifier fires only on a plan being computed. */
  ghost predicate Planned(cv: Cv, page: Raster, o: PairOptions, lines: seq<TextLine>,
                          plans: seq<Result<Option<(string, Raster)>>>)
    requires page.Valid()
  {
    |plans| == |lines| &&
    forall k {:trigger PairPlan(cv, page, lines[k], o)} :: 0 <= k < |lines| ==> plans[k] == PairPlan(cv, page, lines[k], o)
  }

  /** The directory, text and image paths of each line, in order. */
  function LinePaths(outputDir: string, prefix: string, dataTag: string, lines: seq<TextLine>): (r: seq<(string, string, string)>)
    ensures |r| == |lines| && forall i :: 0 <= i < |lines| ==> r[i] == PairPaths(outputDir, prefix, dataTag, lines[i].id)
  {
    Seqs.Map(lines, (t: TextLine) => PairPaths(outputDir, prefix, dataTag, t.id))
  }

  /** What one `write_pair` leaves on disk: the image and then the text, when the plan holds both. */
  function PairWrite(files: map<string, OutFile>, plan: Result<Option<(string, Raster)>>, paths: (string, string, string),
                     params: seq<int>): map<string, OutFile>
  {
    if plan.Ok? && plan.value.Some? then
      files[paths.2 := ImageFile(plan.value.value.1, params)][paths.1 := TextFile(plan.value.value.0)]
    else files
  }

  /** The files after the first `n` turns of the loop, turn `k` writing `plans[k]` at `paths[k]`. */
  function FilesUpTo(files: map<string, OutFile>, plans: seq<Result<Option<(string, Raster)>>>,
                     paths: seq<(string, string, string)>, params: seq<int>, n: nat): map<string, OutFile>
    requires n <= |plans| && |paths| == |plans|
    decreases n
  {
    if n == 0 then files
    else PairWrite(FilesUpTo(files, plans, paths, params, n - 1), plans[n - 1], paths[n - 1], params)
  }

  /** The first turn from the `i`-th on whose error escapes the `try`, or the number of turns. */
  function FirstEscapeFrom(steps: seq<(Result<()>, string)>, i: nat): (k: nat)
    requires i <= |steps|
    ensures i <= k <= |steps|
    ensures forall j :: i <= j < k ==> Escaped(steps[j].0).None?
    ensures k < |steps| ==> Escaped(steps[k].0).Some?
    decreases |steps| - i
  {
    if i == |steps| then i else if Escaped(steps[i].0).Some? then i else FirstEscapeFrom(steps, i + 1)
  }

  /** The files the loop leaves from its `i`-th turn on, starting from `files`: the form the loop of
      `create` keeps as its invariant. */
  function FilesFrom(files: map<string, OutFile>, plans: seq<Result<Option<(string, Raster)>>>,
                     paths: seq<(string, string, string)>, params: seq<int>, steps: seq<(Result<()>, string)>,
                     i: nat): map<string, OutFile>
    requires i <= |plans| && |paths| == |plans| && |steps| == |plans|
    decreases |plans| - i
  {
    if i == |plans| || Escaped(steps[i].0).Some? then files
    else FilesFrom(PairWrite(files, plans[i], paths[i], params), plans, paths, params, steps, i + 1)
  }

  /** The turn `i`: its pair written when its error does not escape, nothing at all when it does. */
  lemma {:induction false} FilesFromStep(files: map<string, OutFile>, plans: seq<Result<Option<(string, Raster)>>>,
                                         paths: seq<(string, string, string)>, params: seq<int>,
                                         steps: seq<(Result<()>, string)>, i: nat)
    requires i < |plans| && |paths| == |plans| && |steps| == |plans|
    ensures Escaped(steps[i].0).Some? ==> FilesFrom(files, plans, paths, params, steps, i) == files
    ensures Escaped(steps[i].0).None? ==>
      FilesFrom(files, plans, paths, params, steps, i) ==
      FilesFrom(PairWrite(files, plans[i], paths[i], params), plans, paths, params, steps, i + 1)
  {
  }

  /** The two folds agree: from the `i`-th turn on, the loop adds the pairs of the turns up to the first escape. */
  lemma {:induction false} FilesFromUpTo(files: map<string, OutFile>, plans: seq<Result<Option<(string, Raster)>>>,
                                         paths: seq<(string, string, string)>, params: seq<int>,
                                         steps: seq<(Result<()>, string)>, i: nat)
    requires i <= |plans| && |paths| == |plans| && |steps| == |plans|
    ensures FilesFrom(FilesUpTo(files, plans, paths, params, i), plans, paths, params, steps, i) ==
      FilesUpTo(files, plans, paths, params, FirstEscapeFrom(steps, i))
    decreases |plans| - i
  {
    if i < |plans| {
      FilesFromStep(FilesUpTo(files, plans, paths, params, i), plans, paths, params, steps, i);
      if Escaped(steps[i].0).None? {
        FilesFromUpTo(files, plans, paths, params, steps, i + 1);
      }
    }
  }

  /** The files the loop of `create` leaves: the pairs of the turns before the first error that escapes. */
  function LoopFiles(cv: Cv, page: Raster, tg: PairTarget, o: PairOptions, lines: seq<TextLine>,
                     files: map<string, OutFile>): map<string, OutFile>
    requires page.Valid()
  {
    FilesUpTo(files, Plans(cv, page, o, lines), LinePaths(tg.outputDir, tg.prefix, tg.dataTag, lines), tg.params,
              FirstEscapeFrom(Outcomes(cv, page, tg.outputDir, tg.prefix, tg.dataTag, o, lines), 0))
  }

  /** The summary file written into `files` at `path`, when every content can be computed. */
  function WithSummary(files: map<string, OutFile>, path: string, lines: seq<TextLine>): map<string, OutFile>
  {
    var text := SummaryText(lines);
    if text.Ok? then files[path := TextFile(text.value)] else files
  }

  /** `write_pair` succeeds exactly when the plan holds a text and an image, that is when it writes them. */
  lemma {:induction false} PairWrittenIffOk(cv: Cv, page: Raster, paths: (string, string, string), line: TextLine, o: PairOptions)
    requires page.Valid()
    ensures var plan := PairPlan(cv, page, line, o);
      PairResult(cv, page, paths, line, o).Ok? <==> plan.Ok? && plan.value.Some?
    ensures var plan := PairPlan(cv, page, line, o);
      plan.Ok? && plan.value.Some? ==> Content(line).Ok? && plan.value.value.0 == Content(line).value
  {
  }

  /** No path of the pair `a` is a path of the pair `b`. */
  predicate Apart(a: (string, string, string), b: (string, string, string))
  {
    a.1 != b.1 && a.1 != b.2 && a.2 != b.1 && a.2 != b.2
  }

  /** The text and image paths of two lines differ, and so do the two paths of one line. */
  lemma {:induction false} PairPathsApart(outputDir: string, prefix: string, tag: string, a: string, b: string)
    ensures PairPaths(outputDir, prefix, tag, a).1 != PairPaths(outputDir, prefix, tag, b).2
    ensures a != b ==> Apart(PairPaths(outputDir, prefix, tag, a), PairPaths(outputDir, prefix, tag, b))
  {
    var dir := PathJoin(outputDir, prefix);
    var ta, ia := PairName(prefix, tag, a, SuffixGtText), PairName(prefix, tag, a, SuffixGtImage);
    var tb, ib := PairName(prefix, tag, b, SuffixGtText), PairName(prefix, tag, b, SuffixGtImage);
    PathJoinLast(dir, ta);
    PathJoinLast(dir, ib);
    assert ta[|ta| - 1] != ib[|ib| - 1];
    if a != b {
      PathJoinLast(dir, tb);
      PathJoinLast(dir, ia);
      var h := prefix + "_" + tag + "_";
      assert ta == h + a + SuffixGtText && tb == h + b + SuffixGtText;
      assert ia == h + a + SuffixGtImage && ib == h + b + SuffixGtImage;
      assert ta[0] == tb[0] && ia[0] == ib[0];
      PathJoinInjective(dir, ta, tb);
      PathJoinInjective(dir, ia, ib);
      assert a == ta[|h|..|ta| - |SuffixGtText|] && b == tb[|h|..|tb| - |SuffixGtText|];
      assert a == ia[|h|..|ia| - |SuffixGtImage|] && b == ib[|h|..|ib| - |SuffixGtImage|];
    }
  }

  /** `p` is the text or the image path of one of the first `n` turns whose plan holds both. */
  ghost predicate PairFileOf(p: string, plans: seq<Result<Option<(string, Raster)>>>, paths: seq<(string, string, string)>,
                             n: nat)
    requires n <= |plans| && |paths| == |plans|
  {
    exists k :: 0 <= k < n && plans[k].Ok? && plans[k].value.Some? && (p == paths[k].1 || p == paths[k].2)
  }

  /** No file that exists before the loop disappears. */
  lemma {:induction false} FilesUpToKeeps(files: map<string, OutFile>, plans: seq<Result<Option<(string, Raster)>>>,
                                          paths: seq<(string, string, string)>, params: seq<int>, n: nat)
    requires n <= |plans| && |paths| == |plans|
    ensures forall p :: p in files ==> p in FilesUpTo(files, plans, paths, params, n)
  {
    if n > 0 {
      FilesUpToKeeps(files, plans, paths, params, n - 1);
    }
  }

  /** Every file the turns add or change is the text or the image of a turn whose plan holds both. */
  lemma {:induction false} FilesUpToOnlyPairs(files: map<string, OutFile>, plans: seq<Result<Option<(string, Raster)>>>,
                                              paths: seq<(string, string, string)>, params: seq<int>, n: nat)
    requires n <= |plans| && |paths| == |plans|
    ensures var w := FilesUpTo(files, plans, paths, params, n);
      forall p :: p in w && (p !in files || w[p] != files[p]) ==> PairFileOf(p, plans, paths, n)
  {
    if n > 0 {
      FilesUpToOnlyPairs(files, plans, paths, params, n - 1);
      var f := FilesUpTo(files, plans, paths, params, n - 1);
      var w := FilesUpTo(files, plans, paths, params, n);
      forall p | p in w && (p !in files || w[p] != files[p])
        ensures PairFileOf(p, plans, paths, n)
      {
        if p == paths[n - 1].1 || p == paths[n - 1].2 {
          if !(plans[n - 1].Ok? && plans[n - 1].value.Some?) {
            assert w == f;
          }
        } else {
          assert p in f && w[p] == f[p];
        }
      }
    }
  }

  /** A turn whose plan holds a text and an image leaves both files, the text and the image as planned,
      when its two paths differ and no later turn writes at either of them. */
  lemma {:induction false} FilesUpToWritten(files: map<string, OutFile>, plans: seq<Result<Option<(string, Raster)>>>,
                                            paths: seq<(string, string, string)>, params: seq<int>, n: nat, k: nat)
    requires k < n <= |plans| && |paths| == |plans|
    requires plans[k].Ok? && plans[k].value.Some? && paths[k].1 != paths[k].2
    requires forall j :: k < j < n ==> Apart(paths[j], paths[k])
    ensures var w := FilesUpTo(files, plans, paths, params, n);
      paths[k].1 in w && w[paths[k].1] == TextFile(plans[k].value.value.0) &&
      paths[k].2 in w && w[paths[k].2] == ImageFile(plans[k].value.value.1, params)
    decreases n
  {
    if n - 1 > k {
      FilesUpToWritten(files, plans, paths, params, n - 1, k);
      assert Apart(paths[n - 1], paths[k]);
    }
  }

  /** After the loop, a line before the first escaping error whose `write_pair` succeeded has its content in
      its text file and its image in its image file, unless a later line has the same id. */
  lemma {:induction false} LoopFilesWritten(cv: Cv, page: Raster, tg: PairTarget, o: PairOptions, lines: seq<TextLine>,
                                            files: map<string, OutFile>, k: nat)
    requires page.Valid()
    requires var steps := Outcomes(cv, page, tg.outputDir, tg.prefix, tg.dataTag, o, lines);
      k < FirstEscapeFrom(steps, 0) && steps[k].0.Ok?
    requires forall j :: k < j < |lines| ==> lines[j].id != lines[k].id
    ensures var w := LoopFiles(cv, page, tg, o, lines, files);
      var paths := PairPaths(tg.outputDir, tg.prefix, tg.dataTag, lines[k].id);
      var plan := PairPlan(cv, page, lines[k], o);
      Content(lines[k]).Ok? && plan.Ok? && plan.value.Some? &&
      paths.1 in w && w[paths.1] == TextFile(Content(lines[k]).value) &&
      paths.2 in w && w[paths.2] == ImageFile(plan.value.value.1, tg.params)
  {
    var steps := Outcomes(cv, page, tg.outputDir, tg.prefix, tg.dataTag, o, lines);
    var plans := Plans(cv, page, o, lines);
    var paths := LinePaths(tg.outputDir, tg.prefix, tg.dataTag, lines);
    PairWrittenIffOk(cv, page, paths[k], lines[k], o);
    PairPathsApart(tg.outputDir, tg.prefix, tg.dataTag, lines[k].id, lines[k].id);
    forall j | k < j < FirstEscapeFrom(steps, 0)
      ensures Apart(paths[j], paths[k])
    {
      PairPathsApart(tg.outputDir, tg.prefix, tg.dataTag, lines[j].id, lines[k].id);
    }
    FilesUpToWritten(files, plans, paths, tg.params, FirstEscapeFrom(steps, 0), k);
  }

  /** `p` is the text or the image path of one of the first `n` lines whose `write_pair` succeeded. */
  ghost predicate WrittenPairFile(p: string, tg: PairTarget, lines: seq<TextLine>, steps: seq<(Result<()>, string)>, n: nat)
    requires n <= |lines| == |steps|
  {
    exists k :: 0 <= k < n && steps[k].0.Ok? &&
      (p == PairPaths(tg.outputDir, tg.prefix, tg.dataTag, lines[k].id).1 ||
       p == PairPaths(tg.outputDir, tg.prefix, tg.dataTag, lines[k].id).2)
  }

  /** The loop removes no file, and every file it adds or changes is the text or the image of a line before
      the first escaping error whose `write_pair` succeeded. */
  lemma {:induction false} LoopFilesOnlyPairs(cv: Cv, page: Raster, tg: PairTarget, o: PairOptions, lines: seq<TextLine>,
                                              files: map<string, OutFile>)
    requires page.Valid()
    ensures var w := LoopFiles(cv, page, tg, o, lines, files);
      forall p :: p in files ==> p in w
    ensures var w := LoopFiles(cv, page, tg, o, lines, files);
      var steps := Outcomes(cv, page, tg.outputDir, tg.prefix, tg.dataTag, o, lines);
      forall p :: p in w && (p !in files || w[p] != files[p]) ==> WrittenPairFile(p, tg, lines, steps, FirstEscapeFrom(steps, 0))
  {
    var steps := Outcomes(cv, page, tg.outputDir, tg.prefix, tg.dataTag, o, lines);
    var plans := Plans(cv, page, o, lines);
    var paths := LinePaths(tg.outputDir, tg.prefix, tg.dataTag, lines);
    var n := FirstEscapeFrom(steps, 0);
    var w := LoopFiles(cv, page, tg, o, lines, files);
    FilesUpToKeeps(files, plans, paths, tg.params, n);
    FilesUpToOnlyPairs(files, plans, paths, tg.params, n);
    forall p | p in w && (p !in files || w[p] != files[p])
      ensures WrittenPairFile(p, tg, lines, steps, n)
    {
      assert PairFileOf(p, plans, paths, n);
      var k :| 0 <= k < n && plans[k].Ok? && plans[k].value.Some? && (p == paths[k].1 || p == paths[k].2);
      PairWrittenIffOk(cv, page, paths[k], lines[k], o);
    }
  }

  class TrainingSets {
    var pairPrefixCache: Option<string>
    const pathOcrData: string
    /** The prefix `pair_prefix` computes before anything is cached, and the data label of the pair names;
        both depend only on `pathOcrData`, which never changes, so they are computed once. */
    const docPrefix: string
    const dataTag: string
    const doc: Document
    const pathImageData: string
    const image: array2<int>
    const outputDir: string
    var xdpi: int
    var ydpi: int
    /** Directories that exist. */
    var dirs: set<string>
    /** Files written, by path. */
    var files: map<string, OutFile>
    /** Lines printed to standard output. */
    var stdout: seq<string>

    /** The constructor once the documents are read: the image as loaded and the dpi from its metadata. */
    constructor (pathOcrData: string, doc: Document, pathImageData: string, image: array2<int>, outputDir: string,
                 meta: ImageMeta, dirs: set<string>)
      ensures this.pathOcrData == pathOcrData && this.doc == doc && this.pathImageData == pathImageData
      ensures docPrefix == DocPrefix(pathOcrData) && dataTag == DataTag(pathOcrData)
      ensures this.image == image && this.outputDir == outputDir && this.dirs == dirs
      ensures pairPrefixCache == None && files == map[] && stdout == []
      ensures (xdpi, ydpi) == ReadDpi(pathImageData, meta)
    {
      this.pathOcrData := pathOcrData;
      var raw := Stem(pathOcrData);
      if IsNumeric(raw) {
        var n := NatToString(DigitsValue(raw));
        docPrefix := "page" + n;
        dataTag := "p" + n;
      } else {
        docPrefix := raw;
        dataTag := raw;
      }
      this.doc := doc;
      this.pathImageData := pathImageData;
      this.image := image;
      this.outputDir := outputDir;
      this.dirs := dirs;
      pairPrefixCache := None;
      files := map[];
      stdout := [];
      var dpi := ReadDpi(pathImageData, meta);
      xdpi := dpi.0;
      ydpi := dpi.1;
    }

    /** The `pair_prefix` getter: computed once, then cached. */
    method PairPrefix() returns (p: string)
      modifies this`pairPrefixCache
      ensures p == PrefixOf(old(pairPrefixCache), docPrefix)
      ensures pairPrefixCache == Some(p)
    {
      if pairPrefixCache.None? {
        pairPrefixCache := Some(docPrefix);
      }
      p := pairPrefixCache.value;
    }

    /** The `pair_prefix` setter: it stores any value, and `None` clears the cache so that the getter
        derives the prefix again. */
    method SetPairPrefix(p: Option<string>)
      modifies this`pairPrefixCache
      ensures pairPrefixCache == p
    {
      pairPrefixCache := p;
    }

    /** The naming part of `write_pair`: the pair directory, created when missing, and the two file paths. */
    method PairTargets(id: string) returns (dirPath: string, gtPath: string, imgPath: string)
      modifies this`pairPrefixCache, this`dirs
      ensures var prefix := PrefixOf(old(pairPrefixCache), docPrefix);
        pairPrefixCache == Some(prefix) && dirs == old(dirs) + {dirPath} &&
        (dirPath, gtPath, imgPath) == PairPaths(outputDir, prefix, dataTag, id)
    {
      var prefix := PairPrefix();
      dirPath := PathJoin(outputDir, prefix);
      if dirPath !in dirs {
        dirs := dirs + {dirPath};
      }
      gtPath := PathJoin(dirPath, PairName(prefix, dataTag, id, SuffixGtText));
      imgPath := PathJoin(dirPath, PairName(prefix, dataTag, id, SuffixGtImage));
    }

    /** `write_pair`: names the two files, creates their directory, and writes the image and then the text
        when the content is non-empty and the crop has a non-zero pixel; otherwise raises
        `ExtractPairException` without writing. */
    method WritePair(cv: Cv, line: TextLine, o: PairOptions) returns (r: Result<()>)
      modifies this`pairPrefixCache, this`dirs, this`files
      ensures var prefix := PrefixOf(old(pairPrefixCache), docPrefix);
        pairPrefixCache == Some(prefix) && dirs == old(dirs) + {PathJoin(outputDir, prefix)}
      ensures var paths := PairPaths(outputDir, PrefixOf(old(pairPrefixCache), docPrefix), dataTag, line.id);
        r == PairResult(cv, old(Pixels(image)), paths, line, o)
      ensures var plan := PairPlan(cv, old(Pixels(image)), line, o);
        var paths := PairPaths(outputDir, PrefixOf(old(pairPrefixCache), docPrefix), dataTag, line.id);
        if plan.Ok? && plan.value.Some? then
          files == old(files)[paths.2 := ImageFile(plan.value.value.1, TiffParams(xdpi, ydpi))][paths.1 := TextFile(plan.value.value.0)]
        else files == old(files)
    {
      ghost var page := Pixels(image);
      var dirPath, gtPath, imgPath := PairTargets(line.id);
      r := WriteLine(cv, line, o, (dirPath, gtPath, imgPath), page);
    }

    /** The writing part of `write_pair` once the paths are known: only the two files change, and only when
        the whole pair can be written. */
    method WriteLine(cv: Cv, line: TextLine, o: PairOptions, paths: (string, string, string), ghost page: Raster)
      returns (r: Result<()>)
      requires Pixels(image) == page
      modifies this`files
      ensures r == PairResult(cv, page, paths, line, o)
      ensures var plan := PairPlan(cv, page, line, o);
        if plan.Ok? && plan.value.Some? then
          files == old(files)[paths.2 := ImageFile(plan.value.value.1, TiffParams(xdpi, ydpi))][paths.1 := TextFile(plan.value.value.0)]
        else files == old(files)
    {
      ghost var plan := PairPlan(cv, page, line, o);
      var content := Content(line);
      if content.Err? {
        assert plan == Err(content.error);
        return Err(content.error);
      }
      var img := LineImage(cv, image, page, line.shape, content.value, o);
      assert plan == if img.Err? then Err(img.error) else if img.value.Some? then Ok(Some((content.value, img.value.value))) else Ok(None);
      if img.Err? {
        return Err(img.error);
      }
      if img.value.Some? {
        var params := TiffParams(xdpi, ydpi);
        files := files[paths.2 := ImageFile(img.value.value, params)];
        files := files[paths.1 := TextFile(content.value)];
        r := Ok(());
      } else {
        r := Err(ExtractPair(ExtractPairMessage(paths.1, paths.2, line, content.value)));
      }
    }

    /** One turn of `create`'s loop: `write_pair` inside a `try` that prints a caught
        `ExtractPairException` and lets every other error escape. `step` is how `write_pair` ends. */
    method Attempt(cv: Cv, lines: seq<TextLine>, i: nat, o: PairOptions, ghost page: Raster, ghost prefix: string,
                   ghost steps: seq<(Result<()>, string)>, ghost plans: seq<Result<Option<(string, Raster)>>>)
      returns (escaped: Option<Error>)
      requires page.Valid() && Pixels(image) == page && PrefixOf(pairPrefixCache, docPrefix) == prefix
      requires i < |lines| && Stepped(cv, page, outputDir, prefix, dataTag, o, lines, steps) && Planned(cv, page, o, lines, plans)
      modifies this`pairPrefixCache, this`dirs, this`files, this`stdout
      ensures escaped == Escaped(steps[i].0) && stdout == old(stdout) + Printed(steps[i].0, steps[i].1)
      ensures pairPrefixCache == Some(prefix) && dirs == old(dirs) + {PathJoin(outputDir, prefix)}
      ensures files == PairWrite(old(files), plans[i], PairPaths(outputDir, prefix, dataTag, lines[i].id), TiffParams(xdpi, ydpi))
      ensures escaped.Some? ==> files == old(files)
    {
      assert plans[i] == PairPlan(cv, page, lines[i], o);
      var w := WritePair(cv, lines[i], o);
      if w.Err? && w.error.ExtractPair? {
        stdout := stdout + [ErrorLine(w.error.message, lines[i].id)];
        escaped := None;
      } else if w.Err? {
        escaped := Some(w.error);
      } else {
        escaped := None;
      }
    }

    /** `write_summary`: every line's content and a newline, in one file named after the prefix inside the
        pair directory; the directory must already exist. */
    method WriteSummary(lines: seq<TextLine>) returns (r: Result<()>)
      modifies this`pairPrefixCache, this`files
      ensures var prefix := PrefixOf(old(pairPrefixCache), docPrefix);
        var path := PathJoin(PathJoin(outputDir, prefix), prefix + SuffixSummary);
        var text := SummaryText(lines);
        (text.Err? ==> r == Err(text.error) && pairPrefixCache == old(pairPrefixCache) && files == old(files)) &&
        (text.Ok? ==> pairPrefixCache == Some(prefix)) &&
        (text.Ok? && PathJoin(outputDir, prefix) !in dirs ==> r == Err(FileNotFound(path)) && files == old(files)) &&
        (text.Ok? && PathJoin(outputDir, prefix) in dirs ==> r.Ok? && files == old(files)[path := TextFile(text.value)])
    {
      var text := SummaryText(lines);
      if text.Err? {
        return Err(text.error);
      }
      var prefix := PairPrefix();
      var fileName := prefix + SuffixSummary;
      var dir := PathJoin(outputDir, prefix);
      var filePath := PathJoin(dir, fileName);
      if dir !in dirs {
        return Err(FileNotFound(filePath));
      }
      files := files[filePath := TextFile(text.value)];
      r := Ok(());
    }

    /** The loop of `create`: one attempt per line, in order, until an error escapes; `steps` are the
        outcomes of `write_pair` for the lines and `plans` what each would write. */
    method PairAll(cv: Cv, lines: seq<TextLine>, o: PairOptions, ghost page: Raster, ghost prefix: string,
                   ghost steps: seq<(Result<()>, string)>, ghost plans: seq<Result<Option<(string, Raster)>>>,
                   ghost paths: seq<(string, string, string)>)
      returns (escaped: Option<Error>)
      requires page.Valid() && Pixels(image) == page && PrefixOf(pairPrefixCache, docPrefix) == prefix
      requires Stepped(cv, page, outputDir, prefix, dataTag, o, lines, steps) && Planned(cv, page, o, lines, plans)
      requires paths == LinePaths(outputDir, prefix, dataTag, lines)
      modifies this`pairPrefixCache, this`dirs, this`files, this`stdout
      ensures stdout == old(stdout) + RunFrom(steps, 0).0 && escaped == RunFrom(steps, 0).1
      ensures PrefixOf(pairPrefixCache, docPrefix) == prefix
      ensures pairPrefixCache == if lines == [] then old(pairPrefixCache) else Some(prefix)
      ensures dirs == old(dirs) + if lines == [] then {} else {PathJoin(outputDir, prefix)}
      ensures files == FilesFrom(old(files), plans, paths, TiffParams(xdpi, ydpi), steps, 0)
    {
      ghost var params := TiffParams(xdpi, ydpi);
      var i := 0;
      while i < |lines|
        invariant 0 <= i <= |lines|
        invariant PrefixOf(pairPrefixCache, docPrefix) == prefix
        invariant pairPrefixCache == if i == 0 then old(pairPrefixCache) else Some(prefix)
        invariant i == 0 ==> dirs == old(dirs)
        invariant i > 0 ==> dirs == old(dirs) + {PathJoin(outputDir, prefix)}
        invariant old(stdout) + RunFrom(steps, 0).0 == stdout + RunFrom(steps, i).0
        invariant RunFrom(steps, 0).1 == RunFrom(steps, i).1
        invariant FilesFrom(old(files), plans, paths, params, steps, 0) == FilesFrom(files, plans, paths, params, steps, i)
      {
        ghost var before := stdout;
        ghost var filesBefore := files;
        escaped := Attempt(cv, lines, i, o, page, prefix, steps, plans);
        FilesFromStep(filesBefore, plans, paths, params, steps, i);
        if escaped.Some? {
          assert before + RunFrom(steps, i).0 == stdout;
          return;
        }
        AppendAssoc(before, Printed(steps[i].0, steps[i].1), RunFrom(steps, i + 1).0);
        i := i + 1;
      }
      escaped := None;
    }

    /** `create`: a pair attempt for each line of the factory in order, where a failed extraction is printed
        and skipped while any other error ends the run, then the summary; the result is every line of the
        factory, whether its pair was written or not. */
    method Create(cv: Cv, minChars: int, summary: bool, reorder: bool, o: PairOptions) returns (r: Result<seq<TextLine>>)
      modifies this`pairPrefixCache, this`dirs, this`files, this`stdout
      ensures FactorySpec(doc, minChars, reorder).Err? ==>
        r == Err(FactorySpec(doc, minChars, reorder).error) && files == old(files) && dirs == old(dirs) &&
        stdout == old(stdout)
      ensures FactorySpec(doc, minChars, reorder).Ok? ==>
        var run := Run(Outcomes(cv, old(Pixels(image)), outputDir, PrefixOf(old(pairPrefixCache), docPrefix), dataTag,
                                o, FactorySpec(doc, minChars, reorder).value));
        stdout == old(stdout) + run.0 && (run.1.Some? ==> r == Err(run.1.value))
      ensures FactorySpec(doc, minChars, reorder).Ok? ==>
        var lines := FactorySpec(doc, minChars, reorder).value;
        var prefix := PrefixOf(old(pairPrefixCache), docPrefix);
        var run := Run(Outcomes(cv, old(Pixels(image)), outputDir, prefix, dataTag, o, lines));
        run.1.None? ==>
          (!summary || lines != [] || PathJoin(outputDir, prefix) in old(dirs) ==> r == Ok(lines)) &&
          (summary && lines == [] && PathJoin(outputDir, prefix) !in old(dirs) ==>
             r == Err(FileNotFound(PathJoin(PathJoin(outputDir, prefix), prefix + SuffixSummary))))
      ensures FactorySpec(doc, minChars, reorder).Ok? ==>
        var lines := FactorySpec(doc, minChars, reorder).value;
        var page := old(Pixels(image));
        var prefix := PrefixOf(old(pairPrefixCache), docPrefix);
        var written := LoopFiles(cv, page, PairTarget(outputDir, prefix, dataTag, TiffParams(xdpi, ydpi)), o, lines, old(files));
        var run := Run(Outcomes(cv, page, outputDir, prefix, dataTag, o, lines));
        dirs == old(dirs) + (if lines == [] then {} else {PathJoin(outputDir, prefix)}) &&
        files == if run.1.None? && summary && (lines != [] || PathJoin(outputDir, prefix) in old(dirs))
                 then WithSummary(written, PathJoin(PathJoin(outputDir, prefix), prefix + SuffixSummary), lines)
                 else written
      ensures FactorySpec(doc, minChars, reorder).Err? ==> pairPrefixCache == old(pairPrefixCache)
      ensures FactorySpec(doc, minChars, reorder).Ok? ==>
        var lines := FactorySpec(doc, minChars, reorder).value;
        pairPrefixCache == if lines == [] && !summary then old(pairPrefixCache)
                           else Some(PrefixOf(old(pairPrefixCache), docPrefix))
    {
      var lines := TextLineFactory(doc, minChars, reorder);
      if lines.Err? {
        return Err(lines.error);
      }
      r := PairLines(cv, lines.value, summary, o);
    }

    /** The part of `create` after the factory: the pair loop over `lines`, then the summary. */
    method PairLines(cv: Cv, lines: seq<TextLine>, summary: bool, o: PairOptions) returns (r: Result<seq<TextLine>>)
      modifies this`pairPrefixCache, this`dirs, this`files, this`stdout
      ensures var run := Run(Outcomes(cv, old(Pixels(image)), outputDir, PrefixOf(old(pairPrefixCache), docPrefix), dataTag,
                                      o, lines));
        stdout == old(stdout) + run.0 && (run.1.Some? ==> r == Err(run.1.value))
      ensures var prefix := PrefixOf(old(pairPrefixCache), docPrefix);
        var run := Run(Outcomes(cv, old(Pixels(image)), outputDir, prefix, dataTag, o, lines));
        run.1.None? ==>
          (!summary || lines != [] || PathJoin(outputDir, prefix) in old(dirs) ==> r == Ok(lines)) &&
          (summary && lines == [] && PathJoin(outputDir, prefix) !in old(dirs) ==>
             r == Err(FileNotFound(PathJoin(PathJoin(outputDir, prefix), prefix + SuffixSummary))))
      ensures var page := old(Pixels(image));
        var prefix := PrefixOf(old(pairPrefixCache), docPrefix);
        var written := LoopFiles(cv, page, PairTarget(outputDir, prefix, dataTag, TiffParams(xdpi, ydpi)), o, lines, old(files));
        var run := Run(Outcomes(cv, page, outputDir, prefix, dataTag, o, lines));
        dirs == old(dirs) + (if lines == [] then {} else {PathJoin(outputDir, prefix)}) &&
        files == if run.1.None? && summary && (lines != [] || PathJoin(outputDir, prefix) in old(dirs))
                 then WithSummary(written, PathJoin(PathJoin(outputDir, prefix), prefix + SuffixSummary), lines)
                 else written
      ensures pairPrefixCache == if lines == [] && !summary then old(pairPrefixCache)
                                 else Some(PrefixOf(old(pairPrefixCache), docPrefix))
    {
      ghost var page := Pixels(image);
      ghost var prefix := PrefixOf(pairPrefixCache, docPrefix);
      ghost var steps := Outcomes(cv, page, outputDir, prefix, dataTag, o, lines);
      ghost var plans := Plans(cv, page, o, lines);
      ghost var paths := LinePaths(outputDir, prefix, dataTag, lines);
      var escaped := PairAll(cv, lines, o, page, prefix, steps, plans, paths);
      RunFromStart(steps);
      FilesFromUpTo(old(files), plans, paths, TiffParams(xdpi, ydpi), steps, 0);
      if escaped.Some? {
        return Err(escaped.value);
      }
      if summary {
        RunCompleteContents(cv, page, outputDir, prefix, dataTag, o, lines);
        var s := WriteSummary(lines);
        if s.Err? {
          return Err(s.error);
        }
      }
      r := Ok(lines);
    }
  }

  /** Opening a document: an image path that is not given is resolved from the OCR-D workspace; without one
      the image cannot be loaded. */
  method Open(pathOcrData: string, pathImageData: Option<string>, doc: Document, image: array2<int>,
              outputDir: string, meta: ImageMeta, onDisk: string -> bool, dirs: set<string>) returns (r: Result<TrainingSets>)
    ensures pathImageData.Some? && pathImageData.value != "" ==> r.Ok? && r.value.pathImageData == pathImageData.value
    ensures (pathImageData.None? || pathImageData.value == "") ==>
      var resolved := ResolveImagePath(pathOcrData, doc, onDisk);
      (r.Ok? <==> resolved.Ok? && resolved.value.Some?) &&
      (r.Ok? ==> r.value.pathImageData == resolved.value.value) &&
      (resolved.Err? ==> r == Err(resolved.error)) &&
      (resolved.Ok? && resolved.value.None? ==> r == Err(MissingValue))
    ensures r.Ok? ==>
      (fresh(r.value) && r.value.pairPrefixCache == None && r.value.files == map[] &&
       (r.value.xdpi, r.value.ydpi) == ReadDpi(r.value.pathImageData, meta))
  {
    var path: string;
    if pathImageData.Some? && pathImageData.value != "" {
      path := pathImageData.value;
    } else {
      var resolved := ResolveImagePath(pathOcrData, doc, onDisk);
      if resolved.Err? {
        return Err(resolved.error);
      }
      if resolved.value.None? {
        return Err(MissingValue);
      }
      path := resolved.value.value;
    }
    var t := new TrainingSets(pathOcrData, doc, path, image, outputDir, meta, dirs);
    r := Ok(t);
  }
}
