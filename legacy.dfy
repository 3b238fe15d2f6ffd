/** What the three older extractors (`generate_sets/`, `sets/` and `lib/`) have in common: the parts of the
    document they read, the ALTO box, the PAGE word order and read-order marks, the two PAGE boxes, the
    dpi they keep and the files they write for one line. */
module Legacy {
  import opened Common
  import opened Text
  import opened Seqs
  import opened Sorting
  import opened Geometry
  import opened Raster
  import opened Paths
  import opened Ocr
  import opened Lines
  import opened Sanitize
  import opened Training

  /** An ALTO `String`: its `CONTENT` and its four position attributes as written, `None` where the
      element lacks the attribute. */
  datatype AltoString = AltoString(content: Option<string>, hpos: Option<string>, vpos: Option<string>,
                                   width: Option<string>, height: Option<string>)

  /** An ALTO `TextLine` with the position of each of its `String`s; `None` where an attribute is missing. */
  datatype AltoTextLine = AltoTextLine(id: Option<string>, hpos: Option<string>, vpos: Option<string>,
                                       width: Option<string>, height: Option<string>, strings: seq<AltoString>)

  /** A parsed document as the older extractors read it: the root namespace and the text lines. */
  datatype Document = Document(uri: string, altoLines: seq<AltoTextLine>, pageLines: seq<PageLine>)

  /** A written file: a text, or an image with the parameters given to `imwrite` (`[]` for none). */
  datatype LegacyFile = TextOut(text: string) | ImageOut(pixels: Raster, params: seq<real>)

  /** Where the pairs of one document go: its label, the output directory, the page and its dpi. */
  datatype Target = Target(setLabel: string, dir: string, page: Raster, dpi: Option<(real, real)>)

  // ---------------------------------------------------------------- ALTO

  /** Every `String` of the line carries a `CONTENT`. */
  predicate HasContents(l: AltoTextLine)
  {
    forall i :: 0 <= i < |l.strings| ==> l.strings[i].content.Some?
  }

  /** `[s.attrib['CONTENT'] for s in strings]` for a line whose `String`s all carry one. */
  function Contents(l: AltoTextLine): (r: seq<string>)
    requires HasContents(l)
    ensures |r| == |l.strings| && forall i :: 0 <= i < |r| ==> Some(r[i]) == l.strings[i].content
  {
    Map(l.strings, (s: AltoString) => if s.content.Some? then s.content.value else "")
  }

  /** The ALTO length filter: the line's `CONTENT`s are all present and, joined by spaces, reach `min_len`. */
  predicate AltoKeep(minLen: int, l: AltoTextLine)
  {
    HasContents(l) && |Join(Contents(l), " ")| >= minLen
  }

  /** The ALTO filter of the three factories: it reads the `CONTENT`s of every line of the document before
      any line object is made, so one `String` without `CONTENT` anywhere raises `KeyError`; otherwise it
      keeps the lines whose joined `CONTENT`s reach `min_len`, in order. */
  function AltoFilter(ls: seq<AltoTextLine>, minLen: int): (r: Result<seq<AltoTextLine>>)
    ensures r.Ok? <==> forall i :: 0 <= i < |ls| ==> HasContents(ls[i])
    ensures r.Err? ==> r.error == MissingAttribute("CONTENT")
    ensures r.Ok? ==> r.value == AltoKept(ls, minLen)
  {
    if forall i :: 0 <= i < |ls| ==> HasContents(ls[i]) then Ok(AltoKept(ls, minLen))
    else Err(MissingAttribute("CONTENT"))
  }

  /** The ALTO lines whose joined `CONTENT`s reach `min_len`, in their order. */
  function AltoKept(ls: seq<AltoTextLine>, minLen: int): seq<AltoTextLine>
  {
    Filter(ls, l => AltoKeep(minLen, l))
  }

  /** What every ALTO line constructor reads first: `set_id` the `ID`, then the `CONTENT` of each `String`;
      the first attribute that is missing names the `KeyError`. */
  function IdAndWords(l: AltoTextLine): (r: Result<(string, seq<string>)>)
    ensures r.Ok? <==> l.id.Some? && HasContents(l)
    ensures l.id.None? ==> r == Err(MissingAttribute("ID"))
    ensures l.id.Some? && !HasContents(l) ==> r == Err(MissingAttribute("CONTENT"))
    ensures r.Ok? ==> r.value == (l.id.value, Contents(l))
  {
    if l.id.None? then Err(MissingAttribute("ID"))
    else if !HasContents(l) then Err(MissingAttribute("CONTENT"))
    else Ok((l.id.value, Contents(l)))
  }

  /** `to_box` / `as_box` of an ALTO element: `(HPOS, VPOS, HPOS + WIDTH, VPOS + HEIGHT)`, each attribute
      read and parsed in the order `HPOS`, `VPOS`, `HEIGHT`, `WIDTH`, so the first one that is missing
      (`KeyError`) or not an integer (`ValueError`) names the error. */
  function AltoBox(hpos: Option<string>, vpos: Option<string>, width: Option<string>, height: Option<string>): (r: Result<Box>)
    ensures var x, y, w, h := IntAttribute(hpos, "HPOS"), IntAttribute(vpos, "VPOS"),
                              IntAttribute(width, "WIDTH"), IntAttribute(height, "HEIGHT");
            && (r.Ok? <==> x.Ok? && y.Ok? && h.Ok? && w.Ok?)
            && (r.Ok? ==> r.value.x1 == x.value && r.value.y1 == y.value &&
                          r.value.x2 - r.value.x1 == w.value && r.value.y2 - r.value.y1 == h.value)
            && (x.Err? ==> r == Err(x.error))
            && (x.Ok? && y.Err? ==> r == Err(y.error))
            && (x.Ok? && y.Ok? && h.Err? ==> r == Err(h.error))
            && (x.Ok? && y.Ok? && h.Ok? && w.Err? ==> r == Err(w.error))
    ensures r.Err? ==> r.error.NotAnInteger? || r.error.MissingAttribute?
  {
    var x :- IntAttribute(hpos, "HPOS");
    var y :- IntAttribute(vpos, "VPOS");
    var h :- IntAttribute(height, "HEIGHT");
    var w :- IntAttribute(width, "WIDTH");
    Ok(Box(x, y, x + w, y + h))
  }

  /** The box of the line itself. */
  function LineBox(l: AltoTextLine): Result<Box>
  {
    AltoBox(l.hpos, l.vpos, l.width, l.height)
  }

  // ---------------------------------------------------------------- PAGE filter

  /** `len(line.find('TextEquiv/Unicode').text) >= min_len`, unstripped; a missing element or text raises. */
  function KeepUnstripped(minLen: int, l: PageLine): (r: Result<bool>)
    ensures r.Ok? <==> l.equivTexts != [] && l.equivTexts[0] != ""
    ensures r.Ok? ==> (r.value <==> |l.equivTexts[0]| >= minLen)
    ensures r.Err? ==> r.error == MissingValue
  {
    if l.equivTexts == [] || l.equivTexts[0] == "" then Err(MissingValue) else Ok(|l.equivTexts[0]| >= minLen)
  }

  /** The PAGE filter of the older factories: the first line without a text raises. */
  function PageMatchings(minLen: int, ls: seq<PageLine>): Result<seq<PageLine>>
  {
    var _ :- Collect(ls, (l: PageLine) => KeepUnstripped(minLen, l));
    Ok(Filter(ls, (l: PageLine) => KeepUnstripped(minLen, l) == Ok(true)))
  }

  /** The filter fails iff some line has no text, and otherwise keeps, in order, the lines whose unstripped
      text reaches `min_len`. */
  lemma {:induction false} PageMatchingsSpec(minLen: int, ls: seq<PageLine>)
    ensures PageMatchings(minLen, ls).Ok? <==> forall l :: l in ls ==> l.equivTexts != [] && l.equivTexts[0] != ""
    ensures PageMatchings(minLen, ls).Ok? ==>
      forall l :: l in PageMatchings(minLen, ls).value <==> l in ls && |l.equivTexts[0]| >= minLen
    ensures PageMatchings(minLen, ls).Ok? ==>
      PageMatchings(minLen, ls).value == Filter(ls, (l: PageLine) => l.equivTexts != [] && |l.equivTexts[0]| >= minLen)
  {
    var c := Collect(ls, (l: PageLine) => KeepUnstripped(minLen, l));
    if !c.Ok? {
      var k :| 0 <= k < |ls| && KeepUnstripped(minLen, ls[k]).Err?;
      assert ls[k] in ls;
    } else {
      forall l | l in ls ensures l.equivTexts != [] && l.equivTexts[0] != "" {
        var k :| 0 <= k < |ls| && ls[k] == l;
        assert KeepUnstripped(minLen, ls[k]).Ok?;
      }
      FilterSame(ls, (l: PageLine) => KeepUnstripped(minLen, l) == Ok(true),
                 (l: PageLine) => l.equivTexts != [] && |l.equivTexts[0]| >= minLen);
    }
  }

  // ---------------------------------------------------------------- PAGE words

  /** `_pick_top_left`: `int` of the first comma field of the first point token; a missing `Coords` or
      blank points raise. */
  function TopLeft(w: PageWord): (r: Result<int>)
    ensures r.Ok? ==> w.coords.Some? && SplitWs(w.coords.value) != [] &&
                      Int(SplitOn(SplitWs(w.coords.value)[0], ',')[0]) == Ok(r.value)
    ensures w.coords.None? ==> r == Err(MissingValue)
    ensures w.coords.Some? && SplitWs(w.coords.value) == [] ==> r == Err(IndexOutOfRange)
  {
    if w.coords.None? then Err(MissingValue)
    else
      var tokens := SplitWs(w.coords.value);
      if tokens == [] then Err(IndexOutOfRange)
      else Int(SplitOn(tokens[0], ',')[0])
  }

  /** The sort key of a word whose top left parses. */
  function TopLeftKey(w: PageWord): int
  {
    match TopLeft(w)
    case Ok(k) => k
    case Err(_) => 0
  }

  /** `sorted(words, key=lambda w: int(_pick_top_left(w)))`: every key is computed before sorting, so the
      first word whose key raises decides the error. */
  function SortedWords(ws: seq<PageWord>): Result<seq<PageWord>>
  {
    var _ :- Collect(ws, TopLeft);
    Ok(SortBy(ws, TopLeftKey))
  }

  /** The sorted words are the same words ordered by their top left x, words with equal keys keeping their
      document order. */
  lemma {:induction false} SortedWordsSpec(ws: seq<PageWord>, k: int)
    requires SortedWords(ws).Ok?
    ensures forall i :: 0 <= i < |ws| ==> TopLeft(ws[i]) == Ok(TopLeftKey(ws[i]))
    ensures SortedBy(SortedWords(ws).value, TopLeftKey)
    ensures multiset(SortedWords(ws).value) == multiset(ws)
    ensures WithKey(SortedWords(ws).value, TopLeftKey, k) == WithKey(ws, TopLeftKey, k)
  {
    SortBySorted(ws, TopLeftKey);
    SortByStable(ws, TopLeftKey, k);
  }

  /** `w.find('.//Unicode').text.strip()`: a word without a `Unicode` or with an empty one raises. */
  function WordText(w: PageWord): (r: Result<string>)
    ensures r.Ok? <==> WordTexts(w) != [] && WordTexts(w)[0] != ""
    ensures r.Ok? ==> r.value == Strip(WordTexts(w)[0])
  {
    var first :- FirstUnicode(WordTexts(w));
    if first == "" then Err(MissingValue) else Ok(Strip(first))
  }

  /** U+200F RIGHT-TO-LEFT MARK */
  const Rlm: char := '\U{200F}'

  /** A token holding a Latin numeral letter. */
  predicate HasNumeral(t: string)
  {
    'X' in t || 'I' in t || 'V' in t
  }

  /** The first mark loop: the read-order mark is removed from a token that holds one. */
  function Unmarked(t: string): string
  {
    if Rlm in t then RemoveChar(t, Rlm) else t
  }

  /** The second mark loop: a token with a numeral letter gets one read-order mark in front. */
  function Marked(t: string): string
  {
    if HasNumeral(t) then [Rlm] + t else t
  }

  function MarkToken(t: string): string
  {
    Marked(Unmarked(t))
  }

  /** After both loops a token starts with the mark iff it holds a numeral letter, no other mark is left,
      and apart from marks the token is unchanged. */
  lemma {:induction false} MarkTokenSpec(t: string)
    ensures var r := MarkToken(t); (r != [] && r[0] == Rlm) <==> HasNumeral(r)
    ensures var r := MarkToken(t); forall i :: 0 < i < |r| ==> r[i] != Rlm
    ensures HasNumeral(MarkToken(t)) <==> HasNumeral(t)
    ensures RemoveChar(MarkToken(t), Rlm) == RemoveChar(t, Rlm)
  {
    var u := Unmarked(t);
    assert Rlm !in u;
    assert HasNumeral(u) <==> HasNumeral(t);
    if HasNumeral(u) {
      var r := [Rlm] + u;
      assert r[1..] == u;
      forall i | 0 < i < |r| ensures r[i] != Rlm {
        assert r[i] == u[i - 1];
      }
      assert RemoveChar(r, Rlm) == RemoveChar(u, Rlm);
    } else {
      if u != [] {
        assert u[0] in u;
      }
      forall i | 0 < i < |u| ensures u[i] != Rlm {
        assert u[i] in u;
      }
    }
  }

  /** The two index loops of `set_text_words`, rewriting each token in place. */
  method SetTextWords(tokens: seq<string>) returns (words: seq<string>)
    ensures words == Map(tokens, MarkToken)
  {
    words := tokens;
    var i := 0;
    while i < |words|
      invariant 0 <= i <= |words| == |tokens|
      invariant forall k :: 0 <= k < i ==> words[k] == Unmarked(tokens[k])
      invariant forall k :: i <= k < |words| ==> words[k] == tokens[k]
    {
      var strip := words[i];
      if Rlm in strip {
        RemoveCharIsReplace(strip, Rlm);
        words := words[i := Replace(strip, [Rlm], "")];
      }
      i := i + 1;
    }
    i := 0;
    while i < |words|
      invariant 0 <= i <= |words| == |tokens|
      invariant forall k :: 0 <= k < i ==> words[k] == MarkToken(tokens[k])
      invariant forall k :: i <= k < |words| ==> words[k] == Unmarked(tokens[k])
    {
      var strip := words[i];
      if 'X' in strip || 'I' in strip || 'V' in strip {
        words := words[i := [Rlm] + strip];
      }
      i := i + 1;
    }
  }

  /** The word tokens of a PAGE line: the words sorted by top left, the stripped first `Unicode` of each,
      then the two mark loops. */
  function PageWords(l: PageLine): Result<seq<string>>
  {
    var sorted :- SortedWords(l.words);
    var texts :- Collect(sorted, WordText);
    Ok(Map(texts, MarkToken))
  }

  /** `set_text_words` of a PAGE line as the source runs it. */
  method PageTextWords(l: PageLine) returns (r: Result<seq<string>>)
    ensures r == PageWords(l)
  {
    var sorted := SortedWords(l.words);
    if sorted.Err? {
      return Err(sorted.error);
    }
    var texts := Collect(sorted.value, WordText);
    if texts.Err? {
      return Err(texts.error);
    }
    var words := SetTextWords(texts.value);
    r := Ok(words);
  }

  // ---------------------------------------------------------------- PAGE boxes

  /** `Polygon(points).bounds` as integers: the per-axis extremes of all the points. A ring of one or two
      points is refused; the bounds of an empty polygon are NaN, which `int()` refuses. */
  function PolygonBox(coords: Option<string>): (r: Result<Box>)
    ensures r.Ok? ==> coords.Some? && ParsePoints(coords.value).Ok? && |ParsePoints(coords.value).value| >= 3
    ensures r.Ok? ==> var ps := ParsePoints(coords.value).value;
      (forall i :: 0 <= i < |ps| ==> Inside(ps[i], r.value)) &&
      (exists i :: 0 <= i < |ps| && ps[i].x == r.value.x1) && (exists i :: 0 <= i < |ps| && ps[i].y == r.value.y1) &&
      (exists i :: 0 <= i < |ps| && ps[i].x == r.value.x2) && (exists i :: 0 <= i < |ps| && ps[i].y == r.value.y2)
    ensures coords.Some? && ParsePoints(coords.value).Ok? ==> (r.Ok? <==> |ParsePoints(coords.value).value| >= 3)
  {
    if coords.None? then Err(MissingValue)
    else
      var ps :- ParsePoints(coords.value);
      if ps == [] then Err(NanToInt)
      else if |ps| < 3 then Err(TooFewPolygonPoints(|ps|))
      else Ok(ShapeToBox(ps))
  }

  /** `int(token.split(',')[0])` and `int(token.split(',')[1])`, in that order. */
  function Corner(token: string): (r: Result<Point>)
    ensures r.Ok? ==> var parts := SplitOn(token, ',');
      |parts| >= 2 && Int(parts[0]) == Ok(r.value.x) && Int(parts[1]) == Ok(r.value.y)
  {
    var parts := SplitOn(token, ',');
    var x :- Int(parts[0]);
    if |parts| < 2 then Err(IndexOutOfRange)
    else
      var y :- Int(parts[1]);
      Ok(Point(x, y))
  }

  /** `(top_left, _, bottom_right, _) = points.split()`: exactly four point tokens, the box spanned by the
      first and the third. */
  function CornerBox(coords: Option<string>): (r: Result<Box>)
    ensures coords.None? ==> r == Err(MissingValue)
    ensures coords.Some? && |SplitWs(coords.value)| != 4 ==> r == Err(UnpackMismatch(4, |SplitWs(coords.value)|))
    ensures r.Ok? ==> coords.Some? && var t := SplitWs(coords.value);
      |t| == 4 && Corner(t[0]) == Ok(Point(r.value.x1, r.value.y1)) && Corner(t[2]) == Ok(Point(r.value.x2, r.value.y2))
  {
    if coords.None? then Err(MissingValue)
    else
      var t := SplitWs(coords.value);
      if |t| != 4 then Err(UnpackMismatch(4, |t|))
      else
        var tl :- Corner(t[0]);
        var br :- Corner(t[2]);
        Ok(Box(tl.x, tl.y, br.x, br.y))
  }

  // ---------------------------------------------------------------- dpi and parameters

  /** `_calculate_tiff_param`: resolution unit inches and both dpi values when both are set and non-zero. */
  function TiffParams(dpi: Option<(real, real)>): (r: seq<real>)
    ensures r != [] <==> dpi.Some? && dpi.value.0 != 0.0 && dpi.value.1 != 0.0
    ensures r != [] ==> |r| == 6 && r[3] == dpi.value.0 && r[5] == dpi.value.1
  {
    if dpi.Some? && dpi.value.0 != 0.0 && dpi.value.1 != 0.0 then
      [TiffResUnit as real, 2.0, TiffXDpi as real, dpi.value.0, TiffYDpi as real, dpi.value.1]
    else []
  }

  /** `_read_dpi` of `generate_sets/` and `sets/`: the TIFF reader for `.tif`, PIL's `dpi` for `.jpg`,
      nothing at all for any other image. */
  function ReadDpi(path: string, meta: ImageMeta): (r: Option<(real, real)>)
    ensures IsSuffix(".tif", path) ==> r.Some? && r.value.0 == r.value.1 &&
                                        r.value.0 == ReadDpiFromTif(meta).0 as real
    ensures !IsSuffix(".tif", path) && IsSuffix(".jpg", path) ==>
      r == Some(if meta.pilDpi.Some? then meta.pilDpi.value else (DefaultDpi as real, DefaultDpi as real))
    ensures !IsSuffix(".tif", path) && !IsSuffix(".jpg", path) ==> r == None
  {
    if IsSuffix(".tif", path) then
      var d := ReadDpiFromTif(meta);
      Some((d.0 as real, d.1 as real))
    else if IsSuffix(".jpg", path) then
      Some(if meta.pilDpi.Some? then meta.pilDpi.value else (DefaultDpi as real, DefaultDpi as real))
    else None
  }

  /** An image that is neither `.tif` nor `.jpg` is written without TIFF parameters. */
  lemma {:induction false} OtherImageNoParams(path: string, meta: ImageMeta)
    requires !IsSuffix(".tif", path) && !IsSuffix(".jpg", path)
    ensures TiffParams(ReadDpi(path, meta)) == []
  {
  }

  // ---------------------------------------------------------------- writing one line

  /** `if not path_out: path_out = prefix + set_label` */
  function OutDir(folderOut: string, prefix: string, setLabel: string): (r: string)
    ensures folderOut != "" ==> r == folderOut
    ensures folderOut == "" ==> IsPrefix(prefix, r) && IsSuffix(setLabel, r)
  {
    if folderOut == "" then
      var r := prefix + setLabel;
      assert r[..|prefix|] == prefix && r[|r| - |setLabel|..] == setLabel;
      r
    else folderOut
  }

  /** `set_label + '_' + element_id + suffix` inside the output directory. */
  function PairPath(tg: Target, id: string, suffix: string): string
  {
    PathJoin(tg.dir, tg.setLabel + "_" + id + suffix)
  }

  /** The text and the image of a line have different paths. */
  lemma {:induction false} PairPathsDistinct(tg: Target, id: string)
    ensures PairPath(tg, id, SuffixGtText) != PairPath(tg, id, SuffixGtImage)
  {
    var t, m := tg.setLabel + "_" + id + SuffixGtText, tg.setLabel + "_" + id + SuffixGtImage;
    assert t[|t| - 1] == 't' && m[|m| - 1] == 'f';
    PathJoinLast(tg.dir, t);
    PathJoinLast(tg.dir, m);
  }

  /** The files after writing one line: nothing for an empty content; otherwise the text, and the crop
      as an image only when it has a non-zero pixel. */
  function WriteFiles(files: map<string, LegacyFile>, tg: Target, id: string, content: string, box: Box): map<string, LegacyFile>
    requires tg.page.Valid()
  {
    if content == "" then files
    else
      var withText := files[PairPath(tg, id, SuffixGtText) := TextOut(content)];
      var frame := Crop(tg.page, box);
      if AnyNonZero(frame) then withText[PairPath(tg, id, SuffixGtImage) := ImageOut(frame, TiffParams(tg.dpi))]
      else withText
  }

  /** The text is written iff the content is non-empty; the image iff in addition the crop is not all
      black, so a text can be written without its image. */
  lemma {:induction false} WriteFilesGate(files: map<string, LegacyFile>, tg: Target, id: string, content: string, box: Box)
    requires tg.page.Valid()
    ensures content == "" ==> WriteFiles(files, tg, id, content, box) == files
    ensures content != "" ==> var r := WriteFiles(files, tg, id, content, box);
      PairPath(tg, id, SuffixGtText) in r && r[PairPath(tg, id, SuffixGtText)] == TextOut(content)
    ensures content != "" && !AnyNonZero(Crop(tg.page, box)) ==>
      WriteFiles(files, tg, id, content, box) == files[PairPath(tg, id, SuffixGtText) := TextOut(content)]
    ensures content != "" && AnyNonZero(Crop(tg.page, box)) ==> var r := WriteFiles(files, tg, id, content, box);
      PairPath(tg, id, SuffixGtImage) in r &&
      r[PairPath(tg, id, SuffixGtImage)] == ImageOut(Crop(tg.page, box), TiffParams(tg.dpi))
    ensures forall p :: p in WriteFiles(files, tg, id, content, box) && p !in files ==>
      p == PairPath(tg, id, SuffixGtText) || p == PairPath(tg, id, SuffixGtImage)
  {
    PairPathsDistinct(tg, id);
  }
}
