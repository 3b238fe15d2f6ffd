/** `lib/trainingdata.py`: text lines of ALTO version 3 and PAGE 2013 whose content is fixed when they are
    built, the height-outlier pass that may move the bottom edge of an ALTO line, and the `TrainingData`
    object that writes a pair per line and no summary. */
module LibTrainingData {
  import opened Common
  import opened Text
  import opened Seqs
  import opened Geometry
  import opened Raster
  import opened Paths
  import opened Ocr
  import Lines
  import Training
  import opened Legacy
  import opened LegacyPairs
  import opened Outliers
  import Sets

  /** `XML_NS` lists the same two namespaces as `sets/`. */
  const Registry: seq<(string, string)> := Sets.Registry

  /** The default `min_chars` of `create`. */
  const CreateMinChars: int := 16

  // ---------------------------------------------------------------- content

  /** `_set_texline_content`: the texts of the line joined by spaces; a line without any keeps `None`. */
  function LineContent(words: seq<string>): (r: Option<string>)
    ensures r.None? <==> words == []
  {
    if words == [] then None else Some(Join(words, " "))
  }

  /** Splitting the content at its spaces gives the texts back, as long as none of them holds a space. */
  lemma {:induction false} LineContentSplits(words: seq<string>)
    requires words != [] && forall i :: 0 <= i < |words| ==> ' ' !in words[i]
    ensures LineContent(words).Some? && SplitOn(LineContent(words).value, ' ') == words
  {
    JoinSplitOn(words, ' ');
  }

  // ---------------------------------------------------------------- lines

  /** `as_box` of one ALTO `String`. */
  function StringBox(s: AltoString): Result<Box>
  {
    AltoBox(s.hpos, s.vpos, s.width, s.height)
  }

  /** `y2 - y1` of each box: the heights `_inspect_content` works on. */
  function Heights(bs: seq<Box>): (r: seq<int>)
    ensures |r| == |bs| && forall i :: 0 <= i < |bs| ==> r[i] == bs[i].y2 - bs[i].y1
  {
    Map(bs, (b: Box) => b.y2 - b.y1)
  }

  /** `get_next_element_height` of each word, `VPOS + HEIGHT`: the bottom edge of its box. */
  function Ends(bs: seq<Box>): (r: seq<int>)
    ensures |r| == |bs| && forall i :: 0 <= i < |bs| ==> r[i] == bs[i].y2
  {
    Map(bs, (b: Box) => b.y2)
  }

  /** What the constructor of an ALTO line reads before its outlier pass: its `ID`, its `CONTENT`s, the box
      of the line and the boxes of its `String`s. */
  datatype Parts = Parts(id: string, words: seq<string>, box: Box, boxes: seq<Box>)

  function AltoParts(l: AltoTextLine): (r: Result<Parts>)
    ensures IdAndWords(l).Err? ==> r == Err(IdAndWords(l).error)
    ensures IdAndWords(l).Ok? && LineBox(l).Err? ==> r == Err(LineBox(l).error)
    ensures IdAndWords(l).Ok? && LineBox(l).Ok? ==>
      (r.Ok? <==> forall i :: 0 <= i < |l.strings| ==> StringBox(l.strings[i]).Ok?)
    ensures r.Ok? ==>
      l.id.Some? && HasContents(l) &&
      r.value.id == l.id.value && r.value.words == Contents(l) &&
      r.value.box == LineBox(l).value && |r.value.boxes| == |l.strings|
  {
    var (id, words) :- IdAndWords(l);
    var box :- LineBox(l);
    var boxes :- Collect(l.strings, StringBox);
    Ok(Parts(id, words, box, boxes))
  }

  /** The line once the outlier pass has run over the parsed boxes: only the bottom edge may move. */
  function Inspected(p: Parts): (r: Line)
    ensures r.dialect == Lines.Alto && r.id == p.id && r.words == p.words
    ensures r.box.x1 == p.box.x1 && r.box.y1 == p.box.y1 && r.box.x2 == p.box.x2
  {
    Line(Lines.Alto, p.id, p.words, p.box.(y2 := Bottom(Heights(p.boxes), Ends(p.boxes), p.box.y2, 1)))
  }

  /** `TrainingTextlineALTO(element)`: the `ID` and the `CONTENT`s, the box of the line, then the boxes of
      its `String`s for the outlier pass, which may only move the bottom edge. */
  function AltoLineOf(l: AltoTextLine): (r: Result<Line>)
    ensures IdAndWords(l).Err? ==> r == Err(IdAndWords(l).error)
    ensures IdAndWords(l).Ok? && LineBox(l).Err? ==> r == Err(LineBox(l).error)
    ensures IdAndWords(l).Ok? && LineBox(l).Ok? ==>
      (r.Ok? <==> forall i :: 0 <= i < |l.strings| ==> StringBox(l.strings[i]).Ok?)
    ensures r.Ok? ==> var b := LineBox(l).value;
      l.id.Some? && HasContents(l) &&
      r.value.dialect == Lines.Alto && r.value.id == l.id.value && r.value.words == Contents(l) &&
      r.value.box.x1 == b.x1 && r.value.box.y1 == b.y1 && r.value.box.x2 == b.x2
  {
    var p :- AltoParts(l);
    Ok(Inspected(p))
  }

  /** The bottom edge of an ALTO line is its own, or the bottom edge of one of its words; it is its own
      whenever the word heights do not spread. */
  lemma {:induction false} AltoLineBottom(l: AltoTextLine)
    requires AltoLineOf(l).Ok?
    ensures var y2 := AltoLineOf(l).value.box.y2;
      y2 == LineBox(l).value.y2 ||
      exists k :: 0 <= k < |l.strings| && y2 == StringBox(l.strings[k]).value.y2
    ensures var boxes := Collect(l.strings, StringBox).value;
      !Spread(Heights(boxes)) ==> AltoLineOf(l).value.box == LineBox(l).value
  {
    var box := LineBox(l).value;
    var boxes := Collect(l.strings, StringBox).value;
    var hs, ends := Heights(boxes), Ends(boxes);
    InspectBottom(hs, ends, box.y2, 1);
    InspectIdle(hs, ends, box.y2);
    if Removed(hs, 1) != [] {
      var k := ArgMax(Remaining(hs, 1));
      assert StringBox(l.strings[k]) == Ok(boxes[k]);
    }
  }

  /** The pass reads the tallest remaining height from the shortened list but looks its word up in the
      full one: with heights `10, 60, 12, 20` the line ends with the word of height 12, the third one. */
  lemma {:induction false} ShortenedIndex(ends: seq<int>, y2: int)
    requires |ends| == 4
    ensures Bottom([10, 60, 12, 20], ends, y2, 1) == ends[2]
  {
    var hs := [10, 60, 12, 20];
    assert Spread(hs);
    assert ArgMax(hs) == 1;
    assert RemoveAt(hs, 1) == [10, 12, 20];
    assert ArgMax([10, 12, 20]) == 2;
    assert !Spread([10, 12, 20]);
    assert Bottom([10, 12, 20], ends, ends[2], 2) == ends[2];
  }

  /** `TrainingTextlinePage2013(element)`: the content joins the texts of the line's own `TextEquiv`s,
      and a text that is `None` makes the join raise; then the box from four points. */
  function PageLineOf(l: PageLine): (r: Result<Line>)
    ensures r.Ok? <==> "" !in l.equivTexts && CornerBox(l.coords).Ok?
    ensures "" in l.equivTexts ==> r == Err(MissingValue)
    ensures "" !in l.equivTexts && CornerBox(l.coords).Err? ==> r == Err(CornerBox(l.coords).error)
    ensures r.Ok? ==> r.value == Line(Lines.Page, l.id, l.equivTexts, CornerBox(l.coords).value)
  {
    if "" in l.equivTexts then Err(MissingValue)
    else
      var box :- CornerBox(l.coords);
      Ok(Line(Lines.Page, l.id, l.equivTexts, box))
  }

  /** The constructor of the ALTO line once its boxes are parsed: fields first, then the outlier loop on
      the object. */
  method NewAltoLine(p: Parts) returns (t: Textline)
    ensures fresh(t) && Snapshot(t) == Inspected(p)
  {
    t := new Textline(Lines.Alto, p.id, p.words, p.box);
    t.InspectContent(Heights(p.boxes), Ends(p.boxes));
  }

  // ---------------------------------------------------------------- factory

  /** `text_data_factory`: as in `sets/`, with the lines of this file. */
  function FactorySpec(doc: Legacy.Document, minLen: int): (r: Result<seq<Line>>)
    ensures Lookup(Registry, doc.uri).Err? ==> r == Err(UnregisteredNamespace(doc.uri))
  {
    var prefix :- Lookup(Registry, doc.uri);
    if IsAltoPrefix(prefix) then
      var kept :- AltoFilter(doc.altoLines, minLen);
      Collect(kept, AltoLineOf)
    else if prefix == "page2013" then
      var matchings :- PageMatchings(minLen, doc.pageLines);
      Collect(matchings, PageLineOf)
    else Ok([])
  }

  /** An ALTO document raises the `KeyError` of a missing `CONTENT` anywhere; otherwise it succeeds exactly
      when every kept line parses, and yields one line per kept text line, in order, with its `ID` and its
      `CONTENT`s as words. */
  lemma {:induction false} FactoryAlto(doc: Legacy.Document, minLen: int)
    requires doc.uri == XmlNs[0].1
    ensures (exists i :: 0 <= i < |doc.altoLines| && !HasContents(doc.altoLines[i])) ==>
      FactorySpec(doc, minLen) == Err(MissingAttribute("CONTENT"))
    ensures var kept := AltoKept(doc.altoLines, minLen);
      FactorySpec(doc, minLen).Ok? <==>
        (forall i :: 0 <= i < |doc.altoLines| ==> HasContents(doc.altoLines[i])) &&
        forall i :: 0 <= i < |kept| ==> AltoLineOf(kept[i]).Ok?
    ensures var kept := AltoKept(doc.altoLines, minLen);
      var r := FactorySpec(doc, minLen);
      r.Ok? ==>
        |r.value| == |kept| &&
        forall i :: 0 <= i < |kept| ==>
          Some(r.value[i].id) == kept[i].id && HasContents(kept[i]) && r.value[i].words == Contents(kept[i])
  {
    FactoryAltoBranch(doc, minLen);
    var f := AltoFilter(doc.altoLines, minLen);
    if f.Ok? {
      var kept := f.value;
      var r := Collect(kept, AltoLineOf);
      if r.Ok? {
        forall i | 0 <= i < |kept|
          ensures Some(r.value[i].id) == kept[i].id && HasContents(kept[i]) && r.value[i].words == Contents(kept[i])
        {
          assert AltoLineOf(kept[i]) == Ok(r.value[i]);
        }
      }
    }
  }

  /** An ALTO document goes through the ALTO branch of the factory: the filter's error, or the lines built
      from the kept ones. */
  lemma {:induction false} FactoryAltoBranch(doc: Legacy.Document, minLen: int)
    requires doc.uri == XmlNs[0].1
    ensures var f := AltoFilter(doc.altoLines, minLen);
      FactorySpec(doc, minLen) == if f.Ok? then Collect(f.value, AltoLineOf) else Err(f.error)
  {
    Sets.RegistrySpec();
    assert IsPrefix("alto", "alto");
  }

  /** A PAGE 2013 document yields lines that are never sanitized: one per matching line, in order, with its
      `TextEquiv` texts as words and the box of its four points. */
  lemma {:induction false} FactoryPage(doc: Legacy.Document, minLen: int)
    requires doc.uri == XmlNs[2].1
    ensures var r := FactorySpec(doc, minLen);
      var m := PageMatchings(minLen, doc.pageLines);
      r.Ok? ==> (m.Ok? && |r.value| == |m.value| &&
        forall i :: 0 <= i < |r.value| ==>
          r.value[i].dialect == Lines.Page && r.value[i].id == m.value[i].id &&
          r.value[i].words == m.value[i].equivTexts && CornerBox(m.value[i].coords) == Ok(r.value[i].box))
  {
    Sets.RegistrySpec();
    AltoNotIn("page2013");
    var r := FactorySpec(doc, minLen);
    var m := PageMatchings(minLen, doc.pageLines);
    if r.Ok? {
      assert r == Collect(m.value, PageLineOf);
      forall i | 0 <= i < |r.value|
        ensures r.value[i].dialect == Lines.Page && r.value[i].id == m.value[i].id &&
          r.value[i].words == m.value[i].equivTexts && CornerBox(m.value[i].coords) == Ok(r.value[i].box)
      {
        assert PageLineOf(m.value[i]) == Ok(r.value[i]);
      }
    }
  }

  method TextDataFactory(doc: Legacy.Document, minLen: int) returns (r: Result<seq<Textline>>)
    ensures var spec := FactorySpec(doc, minLen);
      (r.Ok? <==> spec.Ok?) && (r.Err? ==> r.error == spec.error)
    ensures r.Ok? ==> Snapshots(r.value) == FactorySpec(doc, minLen).value
    ensures r.Ok? ==> forall i :: 0 <= i < |r.value| ==> fresh(r.value[i])
  {
    var prefix := Lookup(Registry, doc.uri);
    if prefix.Err? {
      return Err(prefix.error);
    }
    if IsAltoPrefix(prefix.value) {
      var kept := AltoFilter(doc.altoLines, minLen);
      if kept.Err? {
        return Err(kept.error);
      }
      r := BuildAltoLines(kept.value);
    } else if prefix.value == "page2013" {
      var matchings := PageMatchings(minLen, doc.pageLines);
      if matchings.Err? {
        return Err(matchings.error);
      }
      r := BuildPageLines(matchings.value);
    } else {
      r := Ok([]);
    }
  }

  /** `[TrainingTextlineALTO(line) for line in all_lines_len]`: the first line whose boxes do not parse
      ends it; the constructors only read their own line, so the parsing comes first and the objects
      after it. */
  method BuildAltoLines(ls: seq<AltoTextLine>) returns (r: Result<seq<Textline>>)
    ensures var spec := Collect(ls, AltoLineOf);
      (r.Ok? <==> spec.Ok?) && (r.Err? ==> r.error == spec.error)
    ensures r.Ok? ==> Snapshots(r.value) == Collect(ls, AltoLineOf).value
    ensures r.Ok? ==> forall i :: 0 <= i < |r.value| ==> fresh(r.value[i])
  {
    var parts := Collect(ls, AltoParts);
    AltoLinesFollowParts(ls);
    if parts.Err? {
      return Err(parts.error);
    }
    var ts := BuildInspected(ls, parts.value);
    assert Snapshots(ts) == InspectedAll(ls, parts.value);
    r := Ok(ts);
  }

  /** The lines after the outlier pass, one per parsed line. */
  function InspectedAll(ls: seq<AltoTextLine>, ps: seq<Parts>): (r: seq<Line>)
    requires |ps| == |ls|
    ensures |r| == |ls| && forall i :: 0 <= i < |ls| ==> r[i] == Inspected(ps[i])
  {
    seq(|ls|, i requires 0 <= i < |ls| => Inspected(ps[i]))
  }

  /** A line fails exactly when its boxes do not parse, with the same error; otherwise it is the
      inspected line of its parts. */
  lemma {:induction false} AltoLinesFollowParts(ls: seq<AltoTextLine>)
    ensures var parts := Collect(ls, AltoParts);
      (parts.Ok? <==> Collect(ls, AltoLineOf).Ok?) &&
      (parts.Err? ==> Collect(ls, AltoLineOf) == Err(parts.error)) &&
      (parts.Ok? ==> Collect(ls, AltoLineOf) == Ok(InspectedAll(ls, parts.value)))
  {
    forall j | 0 <= j < |ls|
      ensures (AltoParts(ls[j]).Ok? <==> AltoLineOf(ls[j]).Ok?)
      ensures AltoParts(ls[j]).Err? ==> AltoLineOf(ls[j]) == Err(AltoParts(ls[j]).error)
    {
    }
    CollectSameErrors(ls, AltoParts, AltoLineOf);
    var parts := Collect(ls, AltoParts);
    if parts.Ok? {
      var vs := InspectedAll(ls, parts.value);
      forall j | 0 <= j < |ls| ensures AltoLineOf(ls[j]) == Ok(vs[j]) {
        assert AltoParts(ls[j]) == Ok(parts.value[j]);
      }
      CollectAllOk(ls, AltoLineOf, vs);
    }
  }

  /** One object per parsed line, in order, each through its own outlier pass. */
  method BuildInspected(ls: seq<AltoTextLine>, ps: seq<Parts>) returns (ts: seq<Textline>)
    requires |ps| == |ls|
    ensures |ts| == |ls|
    ensures forall i :: 0 <= i < |ls| ==> fresh(ts[i]) && Snapshot(ts[i]) == Inspected(ps[i])
  {
    ts := [];
    var i := 0;
    while i < |ls|
      invariant 0 <= i <= |ls| && |ts| == i
      invariant forall j :: 0 <= j < i ==> fresh(ts[j]) && Snapshot(ts[j]) == Inspected(ps[j])
    {
      var t := NewAltoLine(ps[i]);
      ts := ts + [t];
      i := i + 1;
    }
  }

  /** `[TrainingTextlinePage2013(line) for line in matchings]`: the constructor of a PAGE line only
      computes its fields, so the values come first and the objects after them. */
  method BuildPageLines(ls: seq<PageLine>) returns (r: Result<seq<Textline>>)
    ensures var spec := Collect(ls, PageLineOf);
      (r.Ok? <==> spec.Ok?) && (r.Err? ==> r.error == spec.error)
    ensures r.Ok? ==> Snapshots(r.value) == Collect(ls, PageLineOf).value
    ensures r.Ok? ==> forall i :: 0 <= i < |r.value| ==> fresh(r.value[i])
  {
    var vs := Collect(ls, PageLineOf);
    if vs.Err? {
      return Err(vs.error);
    }
    var ts := Sets.BuildLines(vs.value);
    r := Ok(ts);
  }

  // ---------------------------------------------------------------- dpi

  /** `read_dpi_from_tif`: both resolutions present and non-zero give the x resolution twice, anything
      else gives `None`. */
  function TifDpi(meta: Training.ImageMeta): (r: Option<(real, real)>)
    ensures r.Some? <==> meta.hasTags && meta.xResolution.Some? && meta.yResolution.Some? &&
                         meta.xResolution.value != 0 && meta.yResolution.value != 0
    ensures r.Some? ==> r.value.0 == r.value.1 == meta.xResolution.value as real
  {
    if meta.hasTags && meta.xResolution.Some? && meta.yResolution.Some? &&
       meta.xResolution.value != 0 && meta.yResolution.value != 0
    then Some((meta.xResolution.value as real, meta.xResolution.value as real))
    else None
  }

  /** `_read_dpi`: a `.tif` is read, and a `None` from the reader cannot be unpacked; a `.jpg` or anything
      else leaves the dpi unset. */
  function ReadDpiOrFail(path: string, meta: Training.ImageMeta): (r: Result<Option<(real, real)>>)
    ensures IsSuffix(".tif", path) ==> (r.Ok? <==> TifDpi(meta).Some?)
    ensures IsSuffix(".tif", path) && r.Ok? ==> r.value == TifDpi(meta)
    ensures r.Err? ==> r.error == UnpackNone
    ensures !IsSuffix(".tif", path) ==> r == Ok(None)
  {
    if IsSuffix(".tif", path) then
      var d := TifDpi(meta);
      if d.None? then Err(UnpackNone) else Ok(d)
    else Ok(None)
  }

  /** Without a dpi the images are written without TIFF parameters. */
  lemma {:induction false} NonTifNoParams(path: string, meta: Training.ImageMeta)
    requires !IsSuffix(".tif", path)
    ensures ReadDpiOrFail(path, meta).Ok? && TiffParams(ReadDpiOrFail(path, meta).value) == []
  {
  }

  // ---------------------------------------------------------------- the writer

  /** What `write_data` reads from a line: a content that is `None` or empty writes nothing. */
  function PairOf(v: Line): Pair
  {
    var c := LineContent(v.words);
    Pair(v.id, Ok(if c.Some? then c.value else ""), v.box)
  }

  function LinePairs(vs: seq<Line>): (r: seq<Pair>)
    ensures |r| == |vs| && forall i :: 0 <= i < |vs| ==> r[i] == PairOf(vs[i])
  {
    Map(vs, PairOf)
  }

  /** No line makes `write_data` raise, so every line is written. */
  lemma {:induction false} EveryLineWritten(files: map<string, LegacyFile>, tg: Target, vs: seq<Line>)
    requires tg.page.Valid()
    ensures Outcome(LinePairs(vs)).Ok?
    ensures Written(files, tg, LinePairs(vs)) == WrittenUpTo(files, tg, LinePairs(vs), |vs|)
  {
    FirstFailureAt(LinePairs(vs), |vs|);
  }

  /** A line without texts leaves the files as they were. */
  lemma {:induction false} NoTextsNoFiles(files: map<string, LegacyFile>, tg: Target, v: Line)
    requires tg.page.Valid() && v.words == []
    ensures WriteOne(files, tg, PairOf(v)) == files
  {
  }

  /** `TrainingData`: the document label, the page image and its dpi, and the file system as directories
      and written files. */
  class TrainingData {
    const setLabel: string
    const page: Raster
    const dpi: Option<(real, real)>
    var dirs: set<string>
    var files: map<string, LegacyFile>

    constructor (setLabel: string, page: Raster, dpi: Option<(real, real)>, dirs: set<string>)
      ensures this.setLabel == setLabel && this.page == page && this.dpi == dpi
      ensures this.dirs == dirs && files == map[]
    {
      this.setLabel := setLabel;
      this.page := page;
      this.dpi := dpi;
      this.dirs := dirs;
      files := map[];
    }

    /** `TrainingData(path_xml_data, path_image_data)` once the image is loaded: the label, then the dpi,
        whose unpacking fails for a `.tif` without both resolutions. */
    static method Open(pathXmlData: string, pathImageData: string, page: Raster, meta: Training.ImageMeta,
                       dirs: set<string>) returns (r: Result<TrainingData>)
      ensures var d := ReadDpiOrFail(pathImageData, meta);
        (r.Ok? <==> d.Ok?) && (r.Err? ==> r.error == d.error)
      ensures r.Ok? ==>
        fresh(r.value) && r.value.setLabel == SplitExtRoot(BaseName(pathXmlData)) && r.value.page == page &&
        r.value.dpi == ReadDpiOrFail(pathImageData, meta).value && r.value.dirs == dirs && r.value.files == map[]
    {
      var name := SplitExtRoot(BaseName(pathXmlData));
      var d := ReadDpiOrFail(pathImageData, meta);
      if d.Err? {
        return Err(d.error);
      }
      var t := new TrainingData(name, page, d.value, dirs);
      r := Ok(t);
    }

    function TargetFor(folderOut: string, prefix: string): Target
    {
      Target(setLabel, OutDir(folderOut, prefix, setLabel), page, dpi)
    }

    /** `write_data`: creates the output directory, then writes the pair of one line. */
    method WriteData(p: Pair, folderOut: string, prefix: string)
      requires page.Valid()
      modifies this`dirs, this`files
      ensures dirs == old(dirs) + {OutDir(folderOut, prefix, setLabel)}
      ensures files == WriteOne(old(files), TargetFor(folderOut, prefix), p)
    {
      var dir := OutDir(folderOut, prefix, setLabel);
      dirs := dirs + {dir};
      if p.content.Ok? {
        files := WriteFiles(files, Target(setLabel, dir, page, dpi), p.id, p.content.value, p.box);
      }
    }

    /** The loop of `create`. */
    method WritePairs(ps: seq<Pair>, folderOut: string, prefix: string)
      requires page.Valid()
      modifies this`dirs, this`files
      ensures files == WrittenUpTo(old(files), TargetFor(folderOut, prefix), ps, |ps|)
      ensures dirs == if ps == [] then old(dirs) else old(dirs) + {OutDir(folderOut, prefix, setLabel)}
    {
      ghost var tg := TargetFor(folderOut, prefix);
      ghost var dir := OutDir(folderOut, prefix, setLabel);
      var i := 0;
      while i < |ps|
        invariant 0 <= i <= |ps|
        invariant files == WrittenUpTo(old(files), tg, ps, i)
        invariant dirs == if i == 0 then old(dirs) else old(dirs) + {dir}
      {
        WriteData(ps[i], folderOut, prefix);
        i := i + 1;
      }
    }

    /** `create`: all lines, a pair for each; the result is the lines. */
    method Create(doc: Legacy.Document, folderOut: string, minChars: int, prefix: string) returns (r: Result<seq<Textline>>)
      requires page.Valid()
      modifies this`dirs, this`files
      ensures var lines := FactorySpec(doc, minChars);
        lines.Err? ==> r == Err(lines.error) && files == old(files) && dirs == old(dirs)
      ensures var lines := FactorySpec(doc, minChars);
        lines.Ok? ==>
          r.Ok? && Snapshots(r.value) == lines.value &&
          files == WrittenUpTo(old(files), TargetFor(folderOut, prefix), LinePairs(lines.value), |lines.value|)
      ensures var lines := FactorySpec(doc, minChars);
        lines.Ok? ==> dirs == if lines.value == [] then old(dirs) else old(dirs) + {OutDir(folderOut, prefix, setLabel)}
    {
      var lines := TextDataFactory(doc, minChars);
      if lines.Err? {
        return Err(lines.error);
      }
      var ps := LinePairs(Snapshots(lines.value));
      WritePairs(ps, folderOut, prefix);
      r := Ok(lines.value);
    }
  }
}
