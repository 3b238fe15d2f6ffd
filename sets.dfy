/** `sets/training_sets.py`: text lines of ALTO version 3 and PAGE 2013 as objects whose `y_2` the outlier
    pass may rewrite, the "first word, then the rest reversed" content, and the `TrainingData` object that
    writes a pair per line and always a summary. */
module Sets {
  import opened Common
  import opened Text
  import opened Seqs
  import opened Geometry
  import opened Raster
  import opened Paths
  import opened Ocr
  import Lines
  import Training
  import opened Legacy
  import opened LegacyPairs
  import opened Outliers

  /** `XML_NS`: only ALTO version 3 and PAGE 2013. */
  const Registry: seq<(string, string)> := [("alto", XmlNs[0].1), ("page2013", XmlNs[2].1)]

  /** The directory prefix of the summary when no output folder is given. */
  const SummaryPrefix: string := "summary"

  lemma {:induction false} RegistrySpec()
    ensures Lookup(Registry, XmlNs[0].1) == Ok("alto") && Lookup(Registry, XmlNs[2].1) == Ok("page2013")
    ensures Lookup(Registry, XmlNs[1].1) == Err(UnregisteredNamespace(XmlNs[1].1))
    ensures Lookup(Registry, XmlNs[3].1) == Err(UnregisteredNamespace(XmlNs[3].1))
  {
    var u0, u1, u2, u3 := XmlNs[0].1, XmlNs[1].1, XmlNs[2].1, XmlNs[3].1;
    assert u0[38] != u1[38] && u2[56] != u3[56];
    assert |u0| == |u1| == 40 && |u2| == |u3| == 63;
    assert u0[0] != u2[0] || u0[7] != u2[7] || |u0| != |u2|;
    LookupDistinct(Registry, 0);
    LookupDistinct(Registry, 1);
    LookupSpec(Registry, u1);
    LookupSpec(Registry, u3);
  }

  // ---------------------------------------------------------------- content

  /** `get_textline_content`: the first word, a space, and the remaining words folded right to left; no
      word at all is an index error and a single word leaves `reduce` nothing to fold. */
  function FirstThenReversed(words: seq<string>): (r: Result<string>)
    ensures words == [] ==> r == Err(IndexOutOfRange)
    ensures |words| == 1 ==> r == Err(EmptyReduce)
  {
    if words == [] then Err(IndexOutOfRange)
    else
      var rest :- Lines.JoinContent(words[1..], true);
      Ok(words[0] + " " + rest)
  }

  /** With two or more words the content is the first word followed by the others from last to second. */
  lemma {:induction false} FirstThenReversedSpec(words: seq<string>)
    requires |words| >= 2
    ensures FirstThenReversed(words) == Ok(Join([words[0]] + Reverse(words[1..]), " "))
  {
    var tail := Reverse(words[1..]);
    assert ([words[0]] + tail)[1..] == tail;
  }

  /** An example of the order: the first word stays in front and the rest are reversed, so `a b c`
      becomes `a c b`. */
  lemma {:induction false} FirstThenReversedExample()
    ensures FirstThenReversed(["a", "b", "c"]) == Ok("a c b")
  {
    var ws := ["a", "b", "c"];
    FirstThenReversedSpec(ws);
    assert ws[1..] == ["b", "c"];
    assert Reverse(["b", "c"]) == ["c", "b"] by {
      assert ["b", "c"][1..] == ["c"];
    }
    var joined := ["a", "c", "b"];
    assert [ws[0]] + ["c", "b"] == joined;
    assert joined[1..] == ["c", "b"] && joined[1..][1..] == ["b"];
    assert Join(joined, " ") == "a" + " " + ("c" + " " + "b");
    assert "a" + " " + ("c" + " " + "b") == "a c b";
  }

  /** Two words keep their reading order. */
  lemma {:induction false} TwoWordsInOrder(a: string, b: string)
    ensures FirstThenReversed([a, b]) == Ok(Join([a, b], " "))
  {
    FirstThenReversedSpec([a, b]);
    assert [a, b][1..] == [b];
    assert Reverse([b]) == [b];
    assert [a] + [b] == [a, b];
  }

  // ---------------------------------------------------------------- lines

  /** What `write_data` and `write_all` read from a line. */
  function PairOf(v: Line): Pair
  {
    Pair(v.id, FirstThenReversed(v.words), v.box)
  }

  function LinePairs(vs: seq<Line>): (r: seq<Pair>)
    ensures |r| == |vs| && forall i :: 0 <= i < |vs| ==> r[i] == PairOf(vs[i])
  {
    Map(vs, PairOf)
  }

  /** A line with fewer than two words cannot give a content, so the whole run raises. */
  lemma {:induction false} ShortLineAborts(vs: seq<Line>, k: nat)
    requires k < |vs| && |vs[k].words| < 2
    ensures Outcome(LinePairs(vs)).Err?
  {
    assert LinePairs(vs)[k].content.Err?;
  }

  /** `TrainingTextlineALTO(element)`: id, `CONTENT`s and the box of the line, read in that order, so the
      first missing or malformed attribute names the error. */
  function AltoLineOf(l: AltoTextLine): (r: Result<Line>)
    ensures r.Ok? <==> IdAndWords(l).Ok? && LineBox(l).Ok?
    ensures IdAndWords(l).Err? ==> r == Err(IdAndWords(l).error)
    ensures IdAndWords(l).Ok? && LineBox(l).Err? ==> r == Err(LineBox(l).error)
    ensures r.Ok? ==> l.id.Some? && HasContents(l) && r.value == Line(Lines.Alto, l.id.value, Contents(l), LineBox(l).value)
  {
    var (id, words) :- IdAndWords(l);
    var box :- LineBox(l);
    Ok(Line(Lines.Alto, id, words, box))
  }

  /** `TrainingTextlinePage2013(element)`: id, the marked words, then the box from the first and third of
      exactly four points. */
  function PageLineOf(l: PageLine): (r: Result<Line>)
    ensures r.Ok? <==> PageWords(l).Ok? && CornerBox(l.coords).Ok?
    ensures PageWords(l).Err? ==> r == Err(PageWords(l).error)
    ensures PageWords(l).Ok? && CornerBox(l.coords).Err? ==> r == Err(CornerBox(l.coords).error)
    ensures r.Ok? ==> r.value == Line(Lines.Page, l.id, PageWords(l).value, CornerBox(l.coords).value)
  {
    var words :- PageWords(l);
    var box :- CornerBox(l.coords);
    Ok(Line(Lines.Page, l.id, words, box))
  }

  /** The constructor: the box fields, then `_inspect_content`, which the ALTO class runs over its
      `line_tokens`; these stay empty, so the pass has no heights to look at. */
  method NewTextline(v: Line) returns (t: Textline)
    ensures fresh(t) && Snapshot(t) == v
  {
    t := new Textline(v.dialect, v.id, v.words, v.box);
    if v.dialect == Lines.Alto {
      InspectIdle([], [], t.y2);
      t.InspectContent([], []);
    }
  }

  /** The outlier pass over no words never changes a box. */
  lemma {:induction false} NoTokensNoChange(y2: int)
    ensures Bottom([], [], y2, 1) == y2
  {
    InspectIdle([], [], y2);
  }

  // ---------------------------------------------------------------- factory

  /** `text_line_factory`: an unregistered namespace raises; ALTO lines are filtered by their joined
      `CONTENT`s, PAGE 2013 lines by their unstripped text, then each kept line is built. */
  function FactorySpec(doc: Legacy.Document, minLen: int): (r: Result<seq<Line>>)
    ensures Lookup(Registry, doc.uri).Err? ==> r == Err(UnregisteredNamespace(doc.uri))
  {
    var prefix :- Lookup(Registry, doc.uri);
    if IsAltoPrefix(prefix) then
      var kept :- AltoFilter(doc.altoLines, minLen);
      Collect(kept, AltoLineOf)
    else if prefix == "page2013" then
      var matchings :- PageMatchings(minLen, doc.pageLines);
      Collect(matchings, PageLineOf)
    else Ok([])
  }

  /** An ALTO document raises the `KeyError` of a missing `CONTENT` anywhere; otherwise it succeeds exactly
      when every kept line has an `ID` and a box that parses, and yields one line per kept text line, in
      order, with its `CONTENT`s as words. */
  lemma {:induction false} FactoryAlto(doc: Legacy.Document, minLen: int)
    requires doc.uri == XmlNs[0].1
    ensures (exists i :: 0 <= i < |doc.altoLines| && !HasContents(doc.altoLines[i])) ==>
      FactorySpec(doc, minLen) == Err(MissingAttribute("CONTENT"))
    ensures var kept := AltoKept(doc.altoLines, minLen);
      FactorySpec(doc, minLen).Ok? <==>
        (forall i :: 0 <= i < |doc.altoLines| ==> HasContents(doc.altoLines[i])) &&
        forall i :: 0 <= i < |kept| ==> kept[i].id.Some? && LineBox(kept[i]).Ok?
    ensures var kept := AltoKept(doc.altoLines, minLen);
      var r := FactorySpec(doc, minLen);
      r.Ok? ==>
        |r.value| == |kept| &&
        forall i :: 0 <= i < |kept| ==>
          kept[i].id.Some? && HasContents(kept[i]) &&
          r.value[i] == Line(Lines.Alto, kept[i].id.value, Contents(kept[i]), LineBox(kept[i]).value)
  {
    FactoryAltoBranch(doc, minLen);
    var f := AltoFilter(doc.altoLines, minLen);
    if f.Ok? {
      var kept := f.value;
      var r := Collect(kept, AltoLineOf);
      forall i | 0 <= i < |kept| ensures AltoLineOf(kept[i]).Ok? <==> kept[i].id.Some? && LineBox(kept[i]).Ok? {
        assert AltoKeep(minLen, kept[i]);
      }
      if r.Ok? {
        forall i | 0 <= i < |kept|
          ensures kept[i].id.Some? && HasContents(kept[i]) &&
                  r.value[i] == Line(Lines.Alto, kept[i].id.value, Contents(kept[i]), LineBox(kept[i]).value)
        {
          assert AltoLineOf(kept[i]) == Ok(r.value[i]);
        }
      }
    }
  }

  /** An ALTO document goes through the ALTO branch of the factory: the filter's error, or the lines built
      from the kept ones. */
  lemma {:induction false} FactoryAltoBranch(doc: Legacy.Document, minLen: int)
    requires doc.uri == XmlNs[0].1
    ensures var f := AltoFilter(doc.altoLines, minLen);
      FactorySpec(doc, minLen) == if f.Ok? then Collect(f.value, AltoLineOf) else Err(f.error)
  {
    RegistrySpec();
    assert IsPrefix("alto", "alto");
  }

  /** A PAGE 2013 document yields PAGE lines; one of its lines without text makes it raise. */
  lemma {:induction false} FactoryPage(doc: Legacy.Document, minLen: int)
    requires doc.uri == XmlNs[2].1
    ensures (exists l :: l in doc.pageLines && (l.equivTexts == [] || l.equivTexts[0] == "")) ==>
      FactorySpec(doc, minLen).Err?
    ensures var r := FactorySpec(doc, minLen);
      r.Ok? ==> forall i :: 0 <= i < |r.value| ==> r.value[i].dialect == Lines.Page
  {
    RegistrySpec();
    AltoNotIn("page2013");
    PageMatchingsSpec(minLen, doc.pageLines);
    var r := FactorySpec(doc, minLen);
    if r.Ok? {
      var matchings := PageMatchings(minLen, doc.pageLines).value;
      forall i | 0 <= i < |r.value| ensures r.value[i].dialect == Lines.Page {
        assert PageLineOf(matchings[i]) == Ok(r.value[i]);
      }
    }
  }

  method TextLineFactory(doc: Legacy.Document, minLen: int) returns (r: Result<seq<Textline>>)
    ensures var spec := FactorySpec(doc, minLen);
      (r.Ok? <==> spec.Ok?) && (r.Err? ==> r.error == spec.error)
    ensures r.Ok? ==> Snapshots(r.value) == FactorySpec(doc, minLen).value
    ensures r.Ok? ==> forall i :: 0 <= i < |r.value| ==> fresh(r.value[i])
  {
    var prefix := Lookup(Registry, doc.uri);
    if prefix.Err? {
      return Err(prefix.error);
    }
    var values: Result<seq<Line>> := Ok([]);
    if IsAltoPrefix(prefix.value) {
      var kept := AltoFilter(doc.altoLines, minLen);
      if kept.Err? {
        return Err(kept.error);
      }
      values := Collect(kept.value, AltoLineOf);
    } else if prefix.value == "page2013" {
      var matchings := PageMatchings(minLen, doc.pageLines);
      if matchings.Err? {
        return Err(matchings.error);
      }
      values := Collect(matchings.value, PageLineOf);
    }
    if values.Err? {
      return Err(values.error);
    }
    var ts := BuildLines(values.value);
    r := Ok(ts);
  }

  /** One new object per line value, in order. */
  method BuildLines(vs: seq<Line>) returns (ts: seq<Textline>)
    ensures Snapshots(ts) == vs
    ensures forall i :: 0 <= i < |ts| ==> fresh(ts[i])
  {
    ts := [];
    var i := 0;
    while i < |vs|
      invariant 0 <= i <= |vs| && |ts| == i
      invariant forall j :: 0 <= j < i ==> fresh(ts[j]) && Snapshot(ts[j]) == vs[j]
    {
      var t := NewTextline(vs[i]);
      ts := ts + [t];
      i := i + 1;
    }
  }

  // ---------------------------------------------------------------- the writer

  /** `TrainingData`: the document label, the page image and its dpi, and the file system as directories
      and written files. */
  class TrainingData {
    const setLabel: string
    const page: Raster
    const dpi: Option<(real, real)>
    var dirs: set<string>
    var files: map<string, LegacyFile>

    constructor (pathXmlData: string, pathImageData: string, page: Raster, meta: Training.ImageMeta, dirs: set<string>)
      ensures setLabel == SplitExtRoot(BaseName(pathXmlData)) && this.page == page
      ensures dpi == ReadDpi(pathImageData, meta)
      ensures this.dirs == dirs && files == map[]
    {
      setLabel := SplitExtRoot(BaseName(pathXmlData));
      this.page := page;
      dpi := ReadDpi(pathImageData, meta);
      this.dirs := dirs;
      files := map[];
    }

    function TargetFor(folderOut: string, prefix: string): Target
    {
      Target(setLabel, OutDir(folderOut, prefix, setLabel), page, dpi)
    }

    /** `write_data`: creates the output directory, then writes the pair of one line. The line enters as
        what `write_data` reads from its object; its content raises only when it is computed here. */
    method WriteData(p: Pair, folderOut: string, prefix: string) returns (r: Result<()>)
      requires page.Valid()
      modifies this`dirs, this`files
      ensures dirs == old(dirs) + {OutDir(folderOut, prefix, setLabel)}
      ensures r == if p.content.Err? then Err(p.content.error) else Ok(())
      ensures files == WriteOne(old(files), TargetFor(folderOut, prefix), p)
    {
      var dir := OutDir(folderOut, prefix, setLabel);
      dirs := dirs + {dir};
      if p.content.Err? {
        return Err(p.content.error);
      }
      files := WriteFiles(files, Target(setLabel, dir, page, dpi), p.id, p.content.value, p.box);
      r := Ok(());
    }

    /** The loop of `create`. */
    method WriteLines(ts: seq<Textline>, folderOut: string, prefix: string) returns (r: Result<()>)
      requires page.Valid()
      modifies this`dirs, this`files
      ensures r == Outcome(LinePairs(Snapshots(ts)))
      ensures files == Written(old(files), TargetFor(folderOut, prefix), LinePairs(Snapshots(ts)))
      ensures dirs == if ts == [] then old(dirs) else old(dirs) + {OutDir(folderOut, prefix, setLabel)}
    {
      var ps := LinePairs(Snapshots(ts));
      r := WritePairs(ps, folderOut, prefix);
    }

    method WritePairs(ps: seq<Pair>, folderOut: string, prefix: string) returns (r: Result<()>)
      requires page.Valid()
      modifies this`dirs, this`files
      ensures r == Outcome(ps)
      ensures files == Written(old(files), TargetFor(folderOut, prefix), ps)
      ensures dirs == if ps == [] then old(dirs) else old(dirs) + {OutDir(folderOut, prefix, setLabel)}
    {
      ghost var tg := TargetFor(folderOut, prefix);
      ghost var dir := OutDir(folderOut, prefix, setLabel);
      var i := 0;
      while i < |ps|
        invariant 0 <= i <= |ps|
        invariant forall j :: 0 <= j < i ==> ps[j].content.Ok?
        invariant files == WrittenUpTo(old(files), tg, ps, i)
        invariant dirs == if i == 0 then old(dirs) else old(dirs) + {dir}
      {
        var w := WriteData(ps[i], folderOut, prefix);
        if w.Err? {
          FirstFailureAt(ps, i);
          return w;
        }
        i := i + 1;
      }
      FirstFailureAt(ps, |ps|);
      r := Ok(());
    }

    /** `write_all`: the summary directory is created first, then every content and a newline go to the
        summary file in it. */
    method WriteAll(ts: seq<Textline>, folderOut: string, prefix: string) returns (r: Result<()>)
      modifies this`dirs, this`files
      ensures dirs == old(dirs) + {OutDir(folderOut, prefix, setLabel)}
      ensures var s := SummaryOf(LinePairs(old(Snapshots(ts))));
        (s.Err? ==> r == Err(s.error) && files == old(files)) &&
        (s.Ok? ==>
           r == Ok(()) &&
           files == old(files)[PathJoin(OutDir(folderOut, prefix, setLabel), setLabel + Training.SuffixSummary) := TextOut(s.value)])
    {
      var vs := Snapshots(ts);
      var dir := OutDir(folderOut, prefix, setLabel);
      dirs := dirs + {dir};
      var s := SummaryOf(LinePairs(vs));
      if s.Err? {
        return Err(s.error);
      }
      files := files[PathJoin(dir, setLabel + Training.SuffixSummary) := TextOut(s.value)];
      r := Ok(());
    }

    /** `create`: all lines, a pair for each until a content raises, then the summary, which goes to
        `summary` plus the label unless an output folder is given. */
    method Create(doc: Legacy.Document, folderOut: string, minChars: int, prefix: string) returns (r: Result<seq<Textline>>)
      requires page.Valid()
      modifies this`dirs, this`files
      ensures var lines := FactorySpec(doc, minChars);
        lines.Err? ==> r == Err(lines.error) && files == old(files) && dirs == old(dirs)
      ensures var lines := FactorySpec(doc, minChars);
        lines.Ok? && Outcome(LinePairs(lines.value)).Err? ==>
          r == Err(Outcome(LinePairs(lines.value)).error) &&
          files == Written(old(files), TargetFor(folderOut, prefix), LinePairs(lines.value))
      ensures var lines := FactorySpec(doc, minChars);
        lines.Ok? && Outcome(LinePairs(lines.value)).Ok? ==>
          r.Ok? && Snapshots(r.value) == lines.value &&
          files == Written(old(files), TargetFor(folderOut, prefix), LinePairs(lines.value))
                     [PathJoin(OutDir(folderOut, SummaryPrefix, setLabel), setLabel + Training.SuffixSummary) :=
                        TextOut(SummaryOf(LinePairs(lines.value)).value)]
      ensures var lines := FactorySpec(doc, minChars);
        var pairDirs := if lines.Ok? && lines.value != [] then {OutDir(folderOut, prefix, setLabel)} else {};
        lines.Ok? ==>
          (Outcome(LinePairs(lines.value)).Err? ==> dirs == old(dirs) + pairDirs) &&
          (Outcome(LinePairs(lines.value)).Ok? ==> dirs == old(dirs) + pairDirs + {OutDir(folderOut, SummaryPrefix, setLabel)})
    {
      var lines := TextLineFactory(doc, minChars);
      if lines.Err? {
        return Err(lines.error);
      }
      ghost var spec := FactorySpec(doc, minChars).value;
      ghost var ps := LinePairs(spec);
      ghost var written := Written(files, TargetFor(folderOut, prefix), ps);
      assert Snapshots(lines.value) == spec;
      assert lines.value == [] <==> spec == [];
      var w := WriteLines(lines.value, folderOut, prefix);
      assert Snapshots(lines.value) == spec;
      assert w == Outcome(ps) && files == written;
      if w.Err? {
        return Err(w.error);
      }
      var s := WriteAll(lines.value, folderOut, SummaryPrefix);
      assert s.Ok?;
      r := Ok(lines.value);
    }
  }
}
