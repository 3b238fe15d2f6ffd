/** `generate_sets/training_sets.py`: text lines of ALTO version 3 and PAGE 2013/2019 as values, and the
    `TrainingSets` object that writes a pair for each line and, on request, a summary of all lines. */
module GenerateSets {
  import opened Common
  import opened Text
  import opened Seqs
  import opened Geometry
  import opened Raster
  import opened Paths
  import opened Ocr
  import Lines
  import Training
  import opened Legacy
  import opened LegacyPairs

  /** `XML_NS`: ALTO is known only in version 3 here. */
  const Registry: seq<(string, string)> := [("alto", XmlNs[0].1), ("page2013", XmlNs[2].1), ("page2019", XmlNs[3].1)]

  /** `DEFAULT_MIN_CHARS`, the default of `create`, and `SUMMARY_SUFFIX`. */
  const DefaultMinChars: int := 4
  const CreateMinChars: int := 8
  const SummarySuffix: string := "_summary.gt.txt"

  /** Each registered namespace maps to its own prefix, and an ALTO version 4 document is refused. */
  lemma {:induction false} RegistrySpec()
    ensures Lookup(Registry, XmlNs[0].1) == Ok("alto")
    ensures Lookup(Registry, XmlNs[2].1) == Ok("page2013") && Lookup(Registry, XmlNs[3].1) == Ok("page2019")
    ensures Lookup(Registry, XmlNs[1].1) == Err(UnregisteredNamespace(XmlNs[1].1))
  {
    var u0, u1, u2, u3 := XmlNs[0].1, XmlNs[1].1, XmlNs[2].1, XmlNs[3].1;
    assert u0[38] != u1[38] && u2[56] != u3[56];
    assert |u0| == |u1| == 40 && |u2| == |u3| == 63;
    forall i, j | 0 <= i < j < |Registry| ensures Registry[i].1 != Registry[j].1 {
    }
    LookupDistinct(Registry, 0);
    LookupDistinct(Registry, 1);
    LookupDistinct(Registry, 2);
    LookupSpec(Registry, u1);
    assert forall i :: 0 <= i < |Registry| ==> Registry[i].1 != u1;
  }

  // ---------------------------------------------------------------- lines

  /** A `TextLine` of this variant: its dialect, id, word tokens, the `revert` it was built with and its
      box. */
  datatype Line = Line(dialect: Lines.Dialect, id: string, words: seq<string>, revert: bool, box: Box)

  /** `get_textline_content` */
  function LineContent(t: Line): Result<string>
  {
    Lines.JoinContent(t.words, t.revert)
  }

  /** What `write_data` reads from a line. */
  function PairOf(t: Line): Pair
  {
    Pair(t.id, LineContent(t), t.box)
  }

  function LinePairs(ts: seq<Line>): (r: seq<Pair>)
    ensures |r| == |ts| && forall i :: 0 <= i < |ts| ==> r[i] == PairOf(ts[i])
  {
    Map(ts, PairOf)
  }

  /** `ALTOLine(element)`: the `CONTENT`s as words and the box of the line itself; `revert` keeps its
      default, so the words are never reversed. The `sanitize_box` pass looks for `String` children under
      a misspelt tag and so never finds any; it leaves the box alone. */
  function AltoLineOf(l: AltoTextLine): (r: Result<Line>)
    ensures r.Ok? <==> IdAndWords(l).Ok? && LineBox(l).Ok?
    ensures IdAndWords(l).Err? ==> r == Err(IdAndWords(l).error)
    ensures IdAndWords(l).Ok? && LineBox(l).Err? ==> r == Err(LineBox(l).error)
    ensures r.Ok? ==> r.value.dialect == Lines.Alto && Some(r.value.id) == l.id && r.value.box == LineBox(l).value
    ensures r.Ok? ==> HasContents(l) && LineContent(r.value) == Ok(Join(Contents(l), " "))
  {
    var (id, words) :- IdAndWords(l);
    var box :- LineBox(l);
    Ok(Line(Lines.Alto, id, words, false, box))
  }

  /** `PageLine(element, namespace, revert)`: the words of `set_text_words`, then the polygon bounds; the
      words are computed first, so their error wins. */
  function PageLineOf(l: PageLine, revert: bool): (r: Result<Line>)
    ensures r.Ok? <==> PageWords(l).Ok? && PolygonBox(l.coords).Ok?
    ensures PageWords(l).Err? ==> r == Err(PageWords(l).error)
    ensures PageWords(l).Ok? && PolygonBox(l.coords).Err? ==> r == Err(PolygonBox(l.coords).error)
    ensures r.Ok? ==> r.value.dialect == Lines.Page && r.value.id == l.id && r.value.revert == revert &&
                      r.value.words == PageWords(l).value && r.value.box == PolygonBox(l.coords).value
  {
    var words :- PageWords(l);
    var box :- PolygonBox(l.coords);
    Ok(Line(Lines.Page, l.id, words, revert, box))
  }

  /** The constructor of `PageLine` as the source runs it. */
  method NewPageLine(l: PageLine, revert: bool) returns (r: Result<Line>)
    ensures r == PageLineOf(l, revert)
  {
    var words := PageTextWords(l);
    if words.Err? {
      return Err(words.error);
    }
    var box := PolygonBox(l.coords);
    if box.Err? {
      return Err(box.error);
    }
    r := Ok(Line(Lines.Page, l.id, words.value, revert, box.value));
  }

  // ---------------------------------------------------------------- factory

  /** `text_line_factory`: an unregistered namespace raises; ALTO lines are filtered by their joined
      `CONTENT`s, PAGE lines by their unstripped text, and then each kept line is built. */
  function FactorySpec(doc: Legacy.Document, minLen: int, revert: bool): (r: Result<seq<Line>>)
    ensures Lookup(Registry, doc.uri).Err? ==> r == Err(UnregisteredNamespace(doc.uri))
  {
    var prefix :- Lookup(Registry, doc.uri);
    if IsAltoPrefix(prefix) then
      var kept :- AltoFilter(doc.altoLines, minLen);
      Collect(kept, AltoLineOf)
    else if IsPagePrefix(prefix) then
      var matchings :- PageMatchings(minLen, doc.pageLines);
      Collect(matchings, (l: PageLine) => PageLineOf(l, revert))
    else Ok([])
  }

  method TextLineFactory(doc: Legacy.Document, minLen: int, revert: bool) returns (r: Result<seq<Line>>)
    ensures r == FactorySpec(doc, minLen, revert)
  {
    var prefix := Lookup(Registry, doc.uri);
    if prefix.Err? {
      return Err(prefix.error);
    }
    if IsAltoPrefix(prefix.value) {
      var kept := AltoFilter(doc.altoLines, minLen);
      if kept.Err? {
        return Err(kept.error);
      }
      return Collect(kept.value, AltoLineOf);
    }
    if !IsPagePrefix(prefix.value) {
      return Ok([]);
    }
    var matchings := PageMatchings(minLen, doc.pageLines);
    if matchings.Err? {
      return Err(matchings.error);
    }
    r := BuildPageLines(matchings.value, revert);
  }

  /** `[PageLine(line, ns_prefix, revert) for line in matchings]`: the first line that raises ends it. */
  method BuildPageLines(ls: seq<PageLine>, revert: bool) returns (r: Result<seq<Line>>)
    ensures r == Collect(ls, (l: PageLine) => PageLineOf(l, revert))
  {
    var f := (l: PageLine) => PageLineOf(l, revert);
    var built: seq<Line> := [];
    var i := 0;
    assert ls[i..] == ls;
    PrependNil(Collect(ls, f));
    while i < |ls|
      invariant 0 <= i <= |ls|
      invariant Collect(ls, f) == Prepend(built, Collect(ls[i..], f))
    {
      CollectStep(ls, f, i);
      var t := NewPageLine(ls[i], revert);
      if t.Err? {
        return Err(t.error);
      }
      PrependAppend(built, [t.value], Collect(ls[i + 1..], f));
      built := built + [t.value];
      i := i + 1;
    }
    assert ls[i..] == [];
    assert built + [] == built;
    r := Ok(built);
  }

  /** An ALTO version 3 document raises the `KeyError` of a missing `CONTENT` anywhere; otherwise it
      succeeds exactly when every kept line has an `ID` and a box that parses, and yields, in order, one line
      per kept text line, each with the id of its element and the plain join of its `CONTENT`s as content. */
  lemma {:induction false} FactoryAlto(doc: Legacy.Document, minLen: int, revert: bool)
    requires doc.uri == XmlNs[0].1
    ensures (exists i :: 0 <= i < |doc.altoLines| && !HasContents(doc.altoLines[i])) ==>
      FactorySpec(doc, minLen, revert) == Err(MissingAttribute("CONTENT"))
    ensures var kept := AltoKept(doc.altoLines, minLen);
      FactorySpec(doc, minLen, revert).Ok? <==>
        (forall i :: 0 <= i < |doc.altoLines| ==> HasContents(doc.altoLines[i])) &&
        forall i :: 0 <= i < |kept| ==> kept[i].id.Some? && LineBox(kept[i]).Ok?
    ensures var kept := AltoKept(doc.altoLines, minLen);
      var r := FactorySpec(doc, minLen, revert);
      r.Ok? ==>
        |r.value| == |kept| &&
        forall i :: 0 <= i < |kept| ==>
          r.value[i].dialect == Lines.Alto && Some(r.value[i].id) == kept[i].id &&
          HasContents(kept[i]) && LineContent(r.value[i]) == Ok(Join(Contents(kept[i]), " "))
  {
    FactoryAltoBranch(doc, minLen, revert);
    var f := AltoFilter(doc.altoLines, minLen);
    if f.Ok? {
      var kept := f.value;
      var r := Collect(kept, AltoLineOf);
      forall i | 0 <= i < |kept| ensures AltoLineOf(kept[i]).Ok? <==> kept[i].id.Some? && LineBox(kept[i]).Ok? {
        assert AltoKeep(minLen, kept[i]);
      }
      if r.Ok? {
        forall i | 0 <= i < |kept|
          ensures r.value[i].dialect == Lines.Alto && Some(r.value[i].id) == kept[i].id &&
                  HasContents(kept[i]) && LineContent(r.value[i]) == Ok(Join(Contents(kept[i]), " "))
        {
          assert AltoLineOf(kept[i]) == Ok(r.value[i]);
        }
      }
    }
  }

  /** An ALTO document goes through the ALTO branch of the factory: the filter's error, or the lines built
      from the kept ones. */
  lemma {:induction false} FactoryAltoBranch(doc: Legacy.Document, minLen: int, revert: bool)
    requires doc.uri == XmlNs[0].1
    ensures var f := AltoFilter(doc.altoLines, minLen);
      FactorySpec(doc, minLen, revert) == if f.Ok? then Collect(f.value, AltoLineOf) else Err(f.error)
  {
    RegistrySpec();
    assert IsPrefix("alto", "alto");
  }

  /** A PAGE document goes through the PAGE branch of the factory. */
  lemma {:induction false} FactoryPageBranch(doc: Legacy.Document, minLen: int, revert: bool)
    requires doc.uri == XmlNs[2].1 || doc.uri == XmlNs[3].1
    ensures PageMatchings(minLen, doc.pageLines).Err? ==> FactorySpec(doc, minLen, revert).Err?
    ensures PageMatchings(minLen, doc.pageLines).Ok? ==>
      FactorySpec(doc, minLen, revert) == Collect(PageMatchings(minLen, doc.pageLines).value, (l: PageLine) => PageLineOf(l, revert))
  {
    var prefix := PagePrefixOf(doc.uri);
    assert Lookup(Registry, doc.uri) == Ok(prefix);
  }

  /** The prefix a PAGE namespace is registered under: not an ALTO prefix, and a PAGE one. */
  lemma {:induction false} PagePrefixOf(uri: string) returns (prefix: string)
    requires uri == XmlNs[2].1 || uri == XmlNs[3].1
    ensures Lookup(Registry, uri) == Ok(prefix) && !IsAltoPrefix(prefix) && IsPagePrefix(prefix)
  {
    RegistrySpec();
    if uri == XmlNs[2].1 {
      prefix := "page2013";
      AltoNotIn("page2013");
    } else {
      prefix := "page2019";
      AltoNotIn("page2019");
    }
  }

  /** A PAGE document fails when one of its lines has no text; otherwise every line it yields carries the
      requested `revert`. */
  lemma {:induction false} FactoryPage(doc: Legacy.Document, minLen: int, revert: bool)
    requires doc.uri == XmlNs[2].1 || doc.uri == XmlNs[3].1
    ensures (exists l :: l in doc.pageLines && (l.equivTexts == [] || l.equivTexts[0] == "")) ==>
      FactorySpec(doc, minLen, revert).Err?
    ensures var r := FactorySpec(doc, minLen, revert);
      r.Ok? ==> forall i :: 0 <= i < |r.value| ==> r.value[i].dialect == Lines.Page && r.value[i].revert == revert
  {
    FactoryPageBranch(doc, minLen, revert);
    PageMatchingsSpec(minLen, doc.pageLines);
    var r := FactorySpec(doc, minLen, revert);
    if r.Ok? {
      var matchings := PageMatchings(minLen, doc.pageLines).value;
      forall i | 0 <= i < |r.value| ensures r.value[i].dialect == Lines.Page && r.value[i].revert == revert {
        assert PageLineOf(matchings[i], revert) == Ok(r.value[i]);
      }
    }
  }

  // ---------------------------------------------------------------- the writer

  /** `TrainingSets`: the document label, the page image and its dpi, the directory of the last
      `write_data`, and the file system as directories and written files. */
  class TrainingSets {
    const setLabel: string
    const page: Raster
    const dpi: Option<(real, real)>
    var pathOut: Option<string>
    var dirs: set<string>
    var files: map<string, LegacyFile>

    /** The constructor once the image is loaded: the label is the file name of the document without its
        extension, and the dpi is read from the image metadata. */
    constructor (pathXmlData: string, pathImageData: string, page: Raster, meta: Training.ImageMeta, dirs: set<string>)
      ensures setLabel == SplitExtRoot(BaseName(pathXmlData)) && this.page == page
      ensures dpi == ReadDpi(pathImageData, meta)
      ensures pathOut == None && this.dirs == dirs && files == map[]
    {
      setLabel := SplitExtRoot(BaseName(pathXmlData));
      this.page := page;
      dpi := ReadDpi(pathImageData, meta);
      pathOut := None;
      this.dirs := dirs;
      files := map[];
    }

    /** Where the pairs go for the given `folder_out` and `prefix`. */
    function TargetFor(folderOut: string, prefix: string): Target
    {
      Target(setLabel, OutDir(folderOut, prefix, setLabel), page, dpi)
    }

    /** `write_data`: records and creates the output directory, then writes the pair of one line; a
        content that raises leaves the files alone. The line enters as what `write_data` reads from it,
        `PairOf` of the line. */
    method WriteData(p: Pair, folderOut: string, prefix: string) returns (r: Result<()>)
      requires page.Valid()
      modifies this`pathOut, this`dirs, this`files
      ensures var dir := OutDir(folderOut, prefix, setLabel); pathOut == Some(dir) && dirs == old(dirs) + {dir}
      ensures r == if p.content.Err? then Err(p.content.error) else Ok(())
      ensures files == WriteOne(old(files), TargetFor(folderOut, prefix), p)
    {
      var dir := OutDir(folderOut, prefix, setLabel);
      pathOut := Some(dir);
      dirs := dirs + {dir};
      if p.content.Err? {
        return Err(p.content.error);
      }
      files := WriteFiles(files, Target(setLabel, dir, page, dpi), p.id, p.content.value, p.box);
      r := Ok(());
    }

    /** The loop of `create`: `write_data` for each line in order until a content raises. */
    method WriteLines(ts: seq<Line>, folderOut: string, prefix: string) returns (r: Result<()>)
      requires page.Valid()
      modifies this`pathOut, this`dirs, this`files
      ensures r == Outcome(LinePairs(ts))
      ensures files == Written(old(files), TargetFor(folderOut, prefix), LinePairs(ts))
      ensures var dir := OutDir(folderOut, prefix, setLabel);
        (ts == [] ==> pathOut == old(pathOut) && dirs == old(dirs)) &&
        (ts != [] ==> pathOut == Some(dir) && dirs == old(dirs) + {dir})
    {
      r := WritePairs(LinePairs(ts), folderOut, prefix);
    }

    /** The same loop over the pairs of the lines. */
    method WritePairs(ps: seq<Pair>, folderOut: string, prefix: string) returns (r: Result<()>)
      requires page.Valid()
      modifies this`pathOut, this`dirs, this`files
      ensures r == Outcome(ps)
      ensures files == Written(old(files), TargetFor(folderOut, prefix), ps)
      ensures var dir := OutDir(folderOut, prefix, setLabel);
        (ps == [] ==> pathOut == old(pathOut) && dirs == old(dirs)) &&
        (ps != [] ==> pathOut == Some(dir) && dirs == old(dirs) + {dir})
    {
      ghost var tg := TargetFor(folderOut, prefix);
      ghost var dir := OutDir(folderOut, prefix, setLabel);
      var i := 0;
      while i < |ps|
        invariant 0 <= i <= |ps|
        invariant forall j :: 0 <= j < i ==> ps[j].content.Ok?
        invariant files == WrittenUpTo(old(files), tg, ps, i)
        invariant i == 0 ==> pathOut == old(pathOut) && dirs == old(dirs)
        invariant i > 0 ==> pathOut == Some(dir) && dirs == old(dirs) + {dir}
      {
        var w := WriteData(ps[i], folderOut, prefix);
        if w.Err? {
          StopAt(old(files), tg, ps, i);
          return w;
        }
        i := i + 1;
      }
      RunThrough(old(files), tg, ps);
      r := Ok(());
    }

    /** `write_all`: every content and a newline, in the summary file inside the directory of the last
        `write_data`; with no such directory the join raises. */
    method WriteAll(ts: seq<Line>) returns (r: Result<()>)
      modifies this`files
      ensures var s := SummaryOf(LinePairs(ts));
        (s.Err? ==> r == Err(s.error) && files == old(files)) &&
        (s.Ok? && pathOut.None? ==> r == Err(MissingValue) && files == old(files)) &&
        (s.Ok? && pathOut.Some? ==>
           r == Ok(()) && files == old(files)[PathJoin(pathOut.value, setLabel + SummarySuffix) := TextOut(s.value)])
    {
      var s := SummaryOf(LinePairs(ts));
      if s.Err? {
        return Err(s.error);
      }
      if pathOut.None? {
        return Err(MissingValue);
      }
      files := files[PathJoin(pathOut.value, setLabel + SummarySuffix) := TextOut(s.value)];
      r := Ok(());
    }

    /** `create`: the lines of the factory, a pair for each until a content raises, then the summary when
        asked for; the result is the lines. */
    method Create(doc: Legacy.Document, folderOut: string, minChars: int, prefix: string, summary: bool, revert: bool)
      returns (r: Result<seq<Line>>)
      requires page.Valid()
      modifies this`pathOut, this`dirs, this`files
      ensures var lines := FactorySpec(doc, minChars, revert);
        lines.Err? ==> r == Err(lines.error) && files == old(files) && dirs == old(dirs)
      ensures var lines := FactorySpec(doc, minChars, revert);
        lines.Err? || lines.value == [] ==> pathOut == old(pathOut) && dirs == old(dirs)
      ensures var lines := FactorySpec(doc, minChars, revert);
        var dir := OutDir(folderOut, prefix, setLabel);
        lines.Ok? && lines.value != [] ==> pathOut == Some(dir) && dirs == old(dirs) + {dir}
      ensures var lines := FactorySpec(doc, minChars, revert);
        lines.Ok? && Outcome(LinePairs(lines.value)).Err? ==>
          r == Err(Outcome(LinePairs(lines.value)).error) &&
          files == Written(old(files), TargetFor(folderOut, prefix), LinePairs(lines.value))
      ensures var lines := FactorySpec(doc, minChars, revert);
        lines.Ok? && Outcome(LinePairs(lines.value)).Ok? && !summary ==>
          r == Ok(lines.value) && files == Written(old(files), TargetFor(folderOut, prefix), LinePairs(lines.value))
      ensures var lines := FactorySpec(doc, minChars, revert);
        var out := if lines.Ok? && lines.value != [] then Some(OutDir(folderOut, prefix, setLabel)) else old(pathOut);
        lines.Ok? && Outcome(LinePairs(lines.value)).Ok? && summary ==>
          var written := Written(old(files), TargetFor(folderOut, prefix), LinePairs(lines.value));
          (out.None? ==> r == Err(MissingValue) && files == written) &&
          (out.Some? ==>
             r == Ok(lines.value) && files == written[PathJoin(out.value, setLabel + SummarySuffix) := TextOut(SummaryOf(LinePairs(lines.value)).value)])
    {
      var lines := TextLineFactory(doc, minChars, revert);
      if lines.Err? {
        return Err(lines.error);
      }
      var w := WriteLines(lines.value, folderOut, prefix);
      if w.Err? {
        return Err(w.error);
      }
      if summary {
        var s := WriteAll(lines.value);
        if s.Err? {
          return Err(s.error);
        }
      }
      r := Ok(lines.value);
    }
  }
}
