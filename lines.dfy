/** Text lines of an ALTO or PAGE document: their words, their content string and their shape, and the
    factory that picks the lines worth a training pair. */
module Lines {
  import opened Common
  import opened Text
  import opened Seqs
  import opened Sorting
  import opened Geometry
  import opened Ocr

  datatype Dialect = Alto | Page

  /** A constructed `ALTOLine` or `PageLine`. `reorder` is `None` until a valid PAGE line sets it; `shape`
      is only computed for a valid line and is `[]` otherwise. */
  datatype TextLine = TextLine(dialect: Dialect, id: string, valid: bool, words: seq<string>,
                               reorder: Option<bool>, shape: seq<Point>)

  // ---------------------------------------------------------------- content

  /** `reduce(lambda c, p: p + ' ' + c, ws, acc)`: each further word goes in front of what was built. */
  function ReduceFrom(acc: string, ws: seq<string>): string
    decreases |ws|
  {
    if ws == [] then acc else ReduceFrom(ws[0] + " " + acc, ws[1..])
  }

  /** The prepending `reduce` is the space join of the reversed words, in front of the start value. */
  lemma {:induction false} ReduceFromJoin(acc: string, ws: seq<string>)
    ensures ReduceFrom(acc, ws) == if ws == [] then acc else Join(Reverse(ws), " ") + " " + acc
    decreases |ws|
  {
    if ws != [] {
      ReduceFromJoin(ws[0] + " " + acc, ws[1..]);
      if ws[1..] == [] {
        assert Reverse(ws) == [ws[0]];
      } else {
        JoinSnoc(Reverse(ws[1..]), ws[0], " ");
        assert Reverse(ws) == Reverse(ws[1..]) + [ws[0]];
      }
    }
  }

  /** `get_textline_content`: the words joined by single spaces; with `reorder` set the same words in reverse
      order, and a `reduce` over no words raises. */
  function Content(t: TextLine): (r: Result<string>)
    ensures t.reorder != Some(true) ==> r == Ok(Join(t.words, " "))
    ensures t.reorder == Some(true) ==> (r.Ok? <==> t.words != [])
    ensures r.Ok? && t.reorder == Some(true) ==> r.value == Join(Reverse(t.words), " ")
    ensures r.Err? ==> r.error == EmptyReduce
  {
    JoinContent(t.words, t.reorder == Some(true))
  }

  /** `' '.join(words)`, or with `reorder` the prepending `reduce` over the words. */
  function JoinContent(words: seq<string>, reorder: bool): (r: Result<string>)
    ensures !reorder ==> r == Ok(Join(words, " "))
    ensures reorder ==> (r.Ok? <==> words != [])
    ensures r.Ok? && reorder ==> r.value == Join(Reverse(words), " ")
    ensures r.Err? ==> r.error == EmptyReduce
  {
    if reorder then
      if words == [] then Err(EmptyReduce)
      else
        ReduceFromJoin(words[0], words[1..]);
        assert Reverse(words) == Reverse(words[1..]) + [words[0]];
        assert words[1..] != [] ==> Join(Reverse(words), " ") == Join(Reverse(words[1..]), " ") + " " + words[0]
        by {
          if words[1..] != [] { JoinSnoc(Reverse(words[1..]), words[0], " "); }
        }
        assert words[1..] == [] ==> Reverse(words) == [words[0]];
        Ok(ReduceFrom(words[0], words[1..]))
    else Ok(Join(words, " "))
  }

  /** Reversing the words does not change the length of the content. */
  lemma {:induction false} ContentLength(t: TextLine)
    requires Content(t).Ok?
    ensures |Content(t).value| == |Join(t.words, " ")|
  {
    if t.reorder == Some(true) {
      JoinLength(Reverse(t.words), " ");
      JoinLength(t.words, " ");
      SumLenReverse(t.words);
    }
  }

  /** `__repr__`: class name, id in brackets, then the content. */
  function Repr(t: TextLine, content: string): (r: string)
    ensures IsSuffix(content, r)
  {
    (if t.dialect == Alto then "ALTOLine" else "PageLine") + "[" + t.id + "]:" + content
  }

  // ---------------------------------------------------------------- ALTO

  /** `element.attrib[name]`: the value, or the `KeyError` of an element without that attribute. */
  function Attribute(a: Option<string>, name: string): (r: Result<string>)
    ensures r.Ok? <==> a.Some?
    ensures r.Ok? ==> r.value == a.value
    ensures r.Err? ==> r.error == MissingAttribute(name)
  {
    if a.Some? then Ok(a.value) else Err(MissingAttribute(name))
  }

  /** `int(element.attrib[name])`. */
  function IntAttribute(a: Option<string>, name: string): (r: Result<int>)
    ensures r.Ok? <==> a.Some? && Int(a.value).Ok?
    ensures r.Ok? ==> r.value == Int(a.value).value
    ensures r.Err? ==> r.error == MissingAttribute(name) || r.error.NotAnInteger?
  {
    var s :- Attribute(a, name);
    Int(s)
  }

  /** `HPOS`, `VPOS`, `WIDTH` and `HEIGHT` as integers, each read and parsed in the order `get_shape`
      reads them (`HEIGHT` before `WIDTH`), so the first attribute that is missing or not an integer
      names the error. */
  function AltoPosition(l: AltoLine): (r: Result<(int, int, int, int)>)
    ensures var x, y, w, h := IntAttribute(l.hpos, "HPOS"), IntAttribute(l.vpos, "VPOS"),
                              IntAttribute(l.width, "WIDTH"), IntAttribute(l.height, "HEIGHT");
            && (r.Ok? <==> x.Ok? && y.Ok? && w.Ok? && h.Ok?)
            && (r.Ok? ==> r.value == (x.value, y.value, w.value, h.value))
            && (x.Err? ==> r == Err(x.error))
            && (x.Ok? && y.Err? ==> r == Err(y.error))
            && (x.Ok? && y.Ok? && h.Err? ==> r == Err(h.error))
            && (x.Ok? && y.Ok? && h.Ok? && w.Err? ==> r == Err(w.error))
    ensures r.Err? ==> r.error.NotAnInteger? || r.error.MissingAttribute?
  {
    var x :- IntAttribute(l.hpos, "HPOS");
    var y :- IntAttribute(l.vpos, "VPOS");
    var h :- IntAttribute(l.height, "HEIGHT");
    var w :- IntAttribute(l.width, "WIDTH");
    Ok((x, y, w, h))
  }

  /** Every `String` of the line carries a `CONTENT`. */
  predicate HasContents(l: AltoLine)
  {
    forall i :: 0 <= i < |l.contents| ==> l.contents[i].Some?
  }

  /** `[s.attrib['CONTENT'] for s in strings]` for a line whose `String`s all carry one. */
  function Words(l: AltoLine): (r: seq<string>)
    requires HasContents(l)
    ensures |r| == |l.contents|
    ensures forall i :: 0 <= i < |r| ==> Some(r[i]) == l.contents[i]
  {
    Map(l.contents, (c: Option<string>) => if c.Some? then c.value else "")
  }

  /** `ALTOLine(element)`: `set_id` reads `ID`, `set_text` the `CONTENT` of every `String`, and `get_shape`
      the position; reorder is never set. The first read that fails names the error. */
  function AltoTextLine(l: AltoLine): (r: Result<TextLine>)
    ensures r.Ok? <==> l.id.Some? && HasContents(l) && AltoPosition(l).Ok?
    ensures l.id.None? ==> r == Err(MissingAttribute("ID"))
    ensures l.id.Some? && !HasContents(l) ==> r == Err(MissingAttribute("CONTENT"))
    ensures l.id.Some? && HasContents(l) && AltoPosition(l).Err? ==> r == Err(AltoPosition(l).error)
    ensures r.Ok? ==> r.value.dialect == Alto && r.value.valid && r.value.reorder == None &&
                      r.value.id == l.id.value && r.value.words == Words(l)
    ensures r.Ok? ==> var p := AltoPosition(l).value; r.value.shape == AltoShape(p.0, p.1, p.2, p.3)
  {
    if l.id.None? then Err(MissingAttribute("ID"))
    else if !HasContents(l) then Err(MissingAttribute("CONTENT"))
    else
      var p :- AltoPosition(l);
      Ok(TextLine(Alto, l.id.value, true, Words(l), None, AltoShape(p.0, p.1, p.2, p.3)))
  }

  /** An ALTO line is never reversed: its content is its `CONTENT`s joined by spaces. */
  lemma {:induction false} AltoNeverReversed(l: AltoLine)
    requires AltoTextLine(l).Ok?
    ensures HasContents(l) && Content(AltoTextLine(l).value) == Ok(Join(Words(l), " "))
  {
  }

  /** The length filter of `get_alto_lines`, on a line whose `CONTENT`s are all present. */
  predicate AltoKeep(minLen: int, l: AltoLine)
    requires HasContents(l)
  {
    |Join(Words(l), " ")| >= minLen
  }

  /** `get_alto_lines`: the filter reads the `CONTENT`s of every line in the document before any line
      object is made, so one missing `CONTENT` anywhere raises; otherwise a line object for each line
      whose joined `CONTENT`s reach `min_len`. */
  function GetAltoLines(ls: seq<AltoLine>, minLen: int): (r: Result<seq<TextLine>>)
    ensures (exists i :: 0 <= i < |ls| && !HasContents(ls[i])) ==> r == Err(MissingAttribute("CONTENT"))
  {
    if forall i :: 0 <= i < |ls| ==> HasContents(ls[i]) then
      Collect(Filter(ls, (l: AltoLine) => HasContents(l) && AltoKeep(minLen, l)), AltoTextLine)
    else Err(MissingAttribute("CONTENT"))
  }

  /** The extraction succeeds exactly when every line carries its `CONTENT`s and every line that passes
      the filter has an `ID` and a position that parses. */
  lemma {:induction false} GetAltoLinesOk(ls: seq<AltoLine>, minLen: int)
    ensures GetAltoLines(ls, minLen).Ok? <==>
              (forall l :: l in ls ==> HasContents(l)) &&
              forall l :: l in ls && HasContents(l) && AltoKeep(minLen, l) ==> AltoTextLine(l).Ok?
  {
    if forall i :: 0 <= i < |ls| ==> HasContents(ls[i]) {
      var kept := Filter(ls, (l: AltoLine) => HasContents(l) && AltoKeep(minLen, l));
      assert forall i :: 0 <= i < |kept| ==> kept[i] in ls && HasContents(kept[i]) && AltoKeep(minLen, kept[i]);
    } else {
      var i :| 0 <= i < |ls| && !HasContents(ls[i]);
      assert ls[i] in ls;
    }
  }

  /** Every returned line has joined words of at least `min_len` characters. */
  lemma {:induction false} GetAltoLinesKept(ls: seq<AltoLine>, minLen: int)
    requires GetAltoLines(ls, minLen).Ok?
    ensures forall t :: t in GetAltoLines(ls, minLen).value ==> |Join(t.words, " ")| >= minLen
  {
    var kept := Filter(ls, (l: AltoLine) => HasContents(l) && AltoKeep(minLen, l));
    var r := Collect(kept, AltoTextLine);
    forall t | t in r.value ensures |Join(t.words, " ")| >= minLen {
      var k :| 0 <= k < |r.value| && r.value[k] == t;
      assert AltoTextLine(kept[k]) == Ok(t);
      assert HasContents(kept[k]) && AltoKeep(minLen, kept[k]);
      assert t.words == Words(kept[k]);
    }
  }

  /** Every line whose joined `CONTENT`s reach `min_len` is returned. */
  lemma {:induction false} GetAltoLinesComplete(ls: seq<AltoLine>, minLen: int, l: AltoLine)
    requires GetAltoLines(ls, minLen).Ok?
    requires l in ls && HasContents(l) && AltoKeep(minLen, l)
    ensures AltoTextLine(l).Ok? && AltoTextLine(l).value in GetAltoLines(ls, minLen).value
  {
    GetAltoLinesOk(ls, minLen);
    var keep := (l: AltoLine) => HasContents(l) && AltoKeep(minLen, l);
    var kept := Filter(ls, keep);
    assert keep(l);
    assert l in kept;
    var r := Collect(kept, AltoTextLine);
    var k :| 0 <= k < |kept| && kept[k] == l;
    assert AltoTextLine(l) == Ok(r.value[k]);
    assert r.value[k] in r.value;
  }

  // ---------------------------------------------------------------- PAGE words

  /** `to_center_coords` of an element: a missing `Coords` raises, blank points give `None`. */
  function Centre(coords: Option<string>): (r: Result<Option<real>>)
    ensures coords.None? ==> r == Err(MissingValue)
    ensures coords.Some? ==> (r == Ok(None) <==> SplitWs(coords.value) == [])
  {
    if coords.None? then Err(MissingValue) else CenterX(coords.value)
  }

  /** `if not top_left`: `None` and a centre of exactly 0.0 are both refused. */
  predicate Usable(c: Option<real>)
  {
    c.Some? && c.value != 0.0
  }

  /** The sort key `int(to_center_coords(w))` of a word that passed the coords check. */
  function WordKey(w: PageWord): int
  {
    match Centre(w.coords)
    case Ok(Some(c)) => Trunc(c)
    case _ => 0
  }

  /** The coords check over the words of line `lineId`: the first word without a usable centre raises. */
  function CheckWords(lineId: string, ws: seq<PageWord>): Result<()>
  {
    FirstRaise(Verdicts(lineId, ws), 0)
  }

  /** The verdict of the coords check on each word of line `lineId`. */
  function Verdicts(lineId: string, ws: seq<PageWord>): (vs: seq<WordVerdict>)
    ensures |vs| == |ws|
  {
    seq(|ws|, k requires 0 <= k < |ws| => WordError(lineId, ws[k]))
  }

  /** The error of the first raising verdict from position `i` on. */
  function FirstRaise(vs: seq<WordVerdict>, i: nat): Result<()>
    requires i <= |vs|
    decreases |vs| - i
  {
    if i == |vs| then Ok(())
    else
      match vs[i]
      case Raises(e) => Err(e)
      case NoError => FirstRaise(vs, i + 1)
  }

  /** The check passes exactly when every word's coords give a usable centre. */
  lemma {:induction false} CheckWordsOk(lineId: string, ws: seq<PageWord>)
    ensures CheckWords(lineId, ws).Ok? <==>
      forall i {:trigger WordError(lineId, ws[i])} :: 0 <= i < |ws| ==> WordError(lineId, ws[i]) == NoError
  {
    var vs := Verdicts(lineId, ws);
    FirstRaiseOk(vs, 0);
    if CheckWords(lineId, ws).Ok? {
      forall i | 0 <= i < |ws| ensures WordError(lineId, ws[i]) == NoError {
        assert vs[i] == WordError(lineId, ws[i]);
      }
    } else {
      var k :| 0 <= k < |vs| && vs[k] != NoError;
      assert vs[k] == WordError(lineId, ws[k]);
    }
  }

  lemma {:induction false} FirstRaiseOk(vs: seq<WordVerdict>, i: nat)
    requires i <= |vs|
    ensures FirstRaise(vs, i).Ok? <==> forall k :: i <= k < |vs| ==> vs[k] == NoError
    decreases |vs| - i
  {
    if i < |vs| {
      FirstRaiseOk(vs, i + 1);
    }
  }

  /** When the words before `i` all pass, the check's outcome is that of word `i` (or success when all
      words passed). */
  lemma {:induction false} CheckWordsAt(lineId: string, ws: seq<PageWord>, i: nat)
    requires i <= |ws|
    requires forall k {:trigger WordError(lineId, ws[k])} :: 0 <= k < i ==> WordError(lineId, ws[k]) == NoError
    ensures i == |ws| ==> CheckWords(lineId, ws) == Ok(())
    ensures i < |ws| && WordError(lineId, ws[i]).Raises? ==> CheckWords(lineId, ws) == Err(WordError(lineId, ws[i]).error)
  {
    var vs := Verdicts(lineId, ws);
    forall k | 0 <= k < i ensures vs[k] == NoError {
      assert vs[k] == WordError(lineId, ws[k]);
    }
    FirstRaisePrefix(vs, i);
    if i < |ws| {
      assert vs[i] == WordError(lineId, ws[i]);
    }
  }

  lemma {:induction false} FirstRaisePrefix(vs: seq<WordVerdict>, i: nat)
    requires i <= |vs|
    requires forall k :: 0 <= k < i ==> vs[k] == NoError
    ensures FirstRaise(vs, 0) == FirstRaise(vs, i)
  {
    if i > 0 {
      FirstRaisePrefix(vs, i - 1);
    }
  }

  /** A failing check raises the error of the first word that does not pass. */
  lemma {:induction false} CheckWordsErr(lineId: string, ws: seq<PageWord>)
    ensures CheckWords(lineId, ws).Err? ==>
      exists k :: (0 <= k < |ws| && Raises(CheckWords(lineId, ws).error) == WordError(lineId, ws[k]) &&
                   forall j :: 0 <= j < k ==> WordError(lineId, ws[j]) == NoError)
  {
    var vs := Verdicts(lineId, ws);
    FirstRaiseErr(vs, 0);
    if CheckWords(lineId, ws).Err? {
      var k :| 0 <= k < |vs| && Raises(FirstRaise(vs, 0).error) == vs[k] && forall j :: 0 <= j < k ==> vs[j] == NoError;
      assert forall j :: 0 <= j < k ==> WordError(lineId, ws[j]) == vs[j];
    }
  }

  lemma {:induction false} FirstRaiseErr(vs: seq<WordVerdict>, i: nat)
    requires i <= |vs|
    ensures FirstRaise(vs, i).Err? ==>
      exists k :: i <= k < |vs| && Raises(FirstRaise(vs, i).error) == vs[k] && forall j :: i <= j < k ==> vs[j] == NoError
    decreases |vs| - i
  {
    if i < |vs| && vs[i] == NoError {
      FirstRaiseErr(vs, i + 1);
    }
  }

  /** The error the coords check raises for one word, or `NoError` when the word passes. */
  datatype WordVerdict = NoError | Raises(error: Error)

  function WordError(lineId: string, w: PageWord): WordVerdict
  {
    match Centre(w.coords)
    case Err(e) => Raises(e)
    case Ok(c) => if Usable(c) then NoError else Raises(InvalidWordCoords(w.id, lineId))
  }

  /** The `Unicode` texts below a word, in document order: those of its glyphs come first. */
  function WordTexts(w: PageWord): seq<string>
  {
    w.glyphTexts + w.equivTexts
  }

  /** `elem.find('.//Unicode').text` where a missing element raises. */
  function FirstUnicode(texts: seq<string>): (r: Result<string>)
    ensures r.Ok? <==> texts != []
    ensures r.Ok? ==> r.value == texts[0]
  {
    if texts == [] then Err(MissingValue) else Ok(texts[0])
  }

  /** `[u.text.strip() for u in unicodes if u.text]` */
  function Transcriptions(firsts: seq<string>): (r: seq<string>)
    ensures |r| <= |firsts|
  {
    if firsts == [] then []
    else (if firsts[0] != "" then [Strip(firsts[0])] else []) + Transcriptions(firsts[1..])
  }

  /** Empty texts are dropped and every other text is kept, stripped. */
  lemma {:induction false} TranscriptionsSpec(firsts: seq<string>)
    ensures forall x :: x in Transcriptions(firsts) <==> exists t :: t in firsts && t != "" && x == Strip(t)
  {
    if firsts != [] {
      TranscriptionsSpec(firsts[1..]);
      var head := if firsts[0] != "" then [Strip(firsts[0])] else [];
      assert Transcriptions(firsts) == head + Transcriptions(firsts[1..]);
      forall x | x in Transcriptions(firsts) ensures exists t :: t in firsts && t != "" && x == Strip(t) {
        if x in head {
          assert firsts[0] in firsts;
        } else {
          var t :| t in firsts[1..] && t != "" && x == Strip(t);
          assert t in firsts;
        }
      }
      forall x | exists t :: t in firsts && t != "" && x == Strip(t) ensures x in Transcriptions(firsts) {
        var t :| t in firsts && t != "" && x == Strip(t);
        if t != firsts[0] {
          assert t in firsts[1..];
        }
      }
    }
  }

  // ---------------------------------------------------------------- bidi marks

  /** `CLEAR_MARKS`: right-to-left mark, left-to-right mark, zero width no-break space, zero width
      non-joiner, pop directional formatting. */
  const ClearMarksList: seq<char> := ['\U{200F}', '\U{200E}', '\U{FEFF}', '\U{200C}', '\U{202C}']

  /** The mark loop for one token `strip`: each listed mark found in `strip` replaces the current value
      by `strip` without that mark. */
  function ClearFrom(strip: string, cur: string, ms: seq<char>): string
    decreases |ms|
  {
    if ms == [] then cur
    else ClearFrom(strip, if ms[0] in strip then RemoveChar(strip, ms[0]) else cur, ms[1..])
  }

  function ClearMarks(t: string): string
  {
    ClearFrom(t, t, ClearMarksList)
  }

  /** The last of `ms` that occurs in `t`. */
  function LastMarkIn(t: string, ms: seq<char>): (r: Option<char>)
    ensures r.None? <==> forall j :: 0 <= j < |ms| ==> ms[j] !in t
    ensures r.Some? ==> exists k :: (0 <= k < |ms| && ms[k] == r.value && r.value in t &&
                                     forall j :: k < j < |ms| ==> ms[j] !in t)
  {
    if ms == [] then None
    else
      var tail := LastMarkIn(t, ms[1..]);
      assert forall j :: 1 <= j < |ms| ==> ms[j] == ms[1..][j - 1];
      if tail.Some? then
        assert exists k :: (1 <= k < |ms| && ms[k] == tail.value && tail.value in t &&
                            forall j :: k < j < |ms| ==> ms[j] !in t) by {
          var k :| 0 <= k < |ms[1..]| && ms[1..][k] == tail.value && tail.value in t &&
            forall j :: k < j < |ms[1..]| ==> ms[1..][j] !in t;
          assert ms[k + 1] == ms[1..][k];
        }
        tail
      else if ms[0] in t then Some(ms[0])
      else None
  }

  lemma {:induction false} ClearFromLast(strip: string, cur: string, ms: seq<char>)
    ensures ClearFrom(strip, cur, ms) == match LastMarkIn(strip, ms)
                                         case None => cur
                                         case Some(m) => RemoveChar(strip, m)
    decreases |ms|
  {
    if ms != [] {
      ClearFromLast(strip, if ms[0] in strip then RemoveChar(strip, ms[0]) else cur, ms[1..]);
    }
  }

  /** Only the last listed mark that occurs in the token is removed (`strip` is not refreshed inside the
      loop); a token without marks is unchanged. */
  lemma {:induction false} ClearMarksLastWins(t: string)
    ensures ClearMarks(t) == match LastMarkIn(t, ClearMarksList)
                             case None => t
                             case Some(m) => RemoveChar(t, m)
  {
    ClearFromLast(t, t, ClearMarksList);
  }

  /** A token with a single kind of mark loses every occurrence of it and nothing else. */
  lemma {:induction false} ClearMarksSingleKind(t: string, m: char)
    requires m in ClearMarksList && m in t
    requires forall c :: c in ClearMarksList && c != m ==> c !in t
    ensures ClearMarks(t) == RemoveChar(t, m)
    ensures forall c :: c in ClearMarksList ==> c !in ClearMarks(t)
    ensures forall x :: x !in ClearMarksList ==> (x in ClearMarks(t) <==> x in t)
  {
    ClearMarksLastWins(t);
    var l := LastMarkIn(t, ClearMarksList);
    assert l == Some(m);
  }

  /** With two kinds of mark the earlier-listed one survives: a right-to-left mark followed by a
      left-to-right mark keeps the right-to-left mark. */
  lemma {:induction false} ClearMarksKeepsEarlierMark()
    ensures ClearMarks("\U{200F}\U{200E}") == "\U{200F}"
  {
    var t := "\U{200F}\U{200E}";
    ClearMarksLastWins(t);
    assert t[1] == '\U{200E}' && t[0] == '\U{200F}';
    assert forall j :: 2 <= j < 5 ==> ClearMarksList[j] !in t;
    assert LastMarkIn(t, ClearMarksList) == Some('\U{200E}');
    assert RemoveChar(t, '\U{200E}') == [t[0]] + RemoveChar(t[1..], '\U{200E}');
  }

  function ClearAll(ts: seq<string>): (r: seq<string>)
    ensures |r| == |ts| && forall i :: 0 <= i < |ts| ==> r[i] == ClearMarks(ts[i])
  {
    Map(ts, ClearMarks)
  }

  // ---------------------------------------------------------------- PAGE lines

  /** What `set_text` leaves: whether the line is valid and its word tokens. A line with words takes the
      words (a word whose coords fail raises), sorted stably by the truncated centre; a line without
      words takes its own text, or is marked invalid when its coords give no usable centre. */
  function SetTextSpec(l: PageLine): (r: Result<(bool, seq<string>)>)
    ensures r.Ok? && !r.value.0 ==> l.words == [] && r.value.1 == []
    ensures r.Ok? ==> |r.value.1| <= (if l.words == [] then 1 else |l.words|)
    ensures l.words != [] && CheckWords(l.id, l.words).Err? ==> r == Err(CheckWords(l.id, l.words).error)
    ensures l.words == [] ==> (r == Ok((false, [])) <==> Centre(l.coords).Ok? && !Usable(Centre(l.coords).value))
  {
    if l.words != [] then
      var _ :- CheckWords(l.id, l.words);
      var sorted := SortBy(l.words, WordKey);
      var firsts :- Collect(sorted, (w: PageWord) => FirstUnicode(WordTexts(w)));
      Ok((true, ClearAll(Transcriptions(firsts))))
    else
      var c :- Centre(l.coords);
      if !Usable(c) then Ok((false, []))
      else
        var first :- FirstUnicode(l.equivTexts);
        Ok((true, ClearAll(Transcriptions([first]))))
  }

  /** Words are ordered stably by the truncated mean x of their points, and every word's key is that
      centre. */
  lemma {:induction false} PageWordOrder(l: PageLine, k: int)
    requires l.words != [] && CheckWords(l.id, l.words).Ok?
    ensures forall i :: 0 <= i < |l.words| ==> exists c :: (Centre(l.words[i].coords) == Ok(Some(c)) && c != 0.0 &&
                                                          WordKey(l.words[i]) == Trunc(c))
    ensures SortedBy(SortBy(l.words, WordKey), WordKey)
    ensures multiset(SortBy(l.words, WordKey)) == multiset(l.words)
    ensures WithKey(SortBy(l.words, WordKey), WordKey, k) == WithKey(l.words, WordKey, k)
  {
    CheckWordsOk(l.id, l.words);
    SortBySorted(l.words, WordKey);
    SortByStable(l.words, WordKey, k);
    forall i | 0 <= i < |l.words|
      ensures exists c :: (Centre(l.words[i].coords) == Ok(Some(c)) && c != 0.0 && WordKey(l.words[i]) == Trunc(c))
    {
      assert WordError(l.id, l.words[i]) == NoError;
      var c := Centre(l.words[i].coords).value.value;
      assert Centre(l.words[i].coords) == Ok(Some(c));
    }
  }

  /** The source's `set_text`: the coords check loop, the sort, the transcriptions and the mark loop that
      rewrites each token in place. */
  method SetText(l: PageLine) returns (r: Result<(bool, seq<string>)>)
    ensures r == SetTextSpec(l)
  {
    var words: seq<string>;
    if l.words != [] {
      var checked := CheckWordLoop(l);
      if checked.Err? {
        return Err(checked.error);
      }
      var sorted := SortBy(l.words, WordKey);
      var firsts := Collect(sorted, (w: PageWord) => FirstUnicode(WordTexts(w)));
      if firsts.Err? {
        return Err(firsts.error);
      }
      words := Transcriptions(firsts.value);
    } else {
      var c := Centre(l.coords);
      if c.Err? {
        return Err(c.error);
      }
      if !Usable(c.value) {
        return Ok((false, []));
      }
      var first := FirstUnicode(l.equivTexts);
      if first.Err? {
        return Err(first.error);
      }
      words := Transcriptions([first.value]);
    }
    words := ClearTokens(words);
    r := Ok((true, words));
  }

  /** The word loop of `set_text`: each word in turn, raising for the first one whose centre is missing
      or unusable. */
  method CheckWordLoop(l: PageLine) returns (r: Result<()>)
    ensures r == CheckWords(l.id, l.words)
  {
    ghost var vs := Verdicts(l.id, l.words);
    var i := 0;
    while i < |l.words|
      invariant 0 <= i <= |l.words|
      invariant forall k :: 0 <= k < i ==> vs[k] == NoError
    {
      var v := CheckWord(l.id, l.words[i]);
      assert v == vs[i];
      if v.Raises? {
        FirstRaisePrefix(vs, i);
        return Err(v.error);
      }
      i := i + 1;
    }
    FirstRaisePrefix(vs, i);
    r := Ok(());
  }

  /** One pass of the word loop: the centre of the word's coords, and the error raised when it is unusable. */
  method CheckWord(lineId: string, w: PageWord) returns (v: WordVerdict)
    ensures v == WordError(lineId, w)
  {
    var c := Centre(w.coords);
    if c.Err? {
      return Raises(c.error);
    }
    if !Usable(c.value) {
      return Raises(InvalidWordCoords(w.id, lineId));
    }
    return NoError;
  }

  /** The mark loop of `set_text`: each token in turn, each listed mark in turn, the token rewritten in
      place whenever the mark occurs in the token as it was before the mark loop. */
  method ClearTokens(tokens: seq<string>) returns (words: seq<string>)
    ensures words == ClearAll(tokens)
  {
    words := tokens;
    var j := 0;
    while j < |words|
      invariant 0 <= j <= |words| == |tokens|
      invariant forall k :: 0 <= k < j ==> words[k] == ClearMarks(tokens[k])
      invariant forall k :: j <= k < |words| ==> words[k] == tokens[k]
    {
      var strip := words[j];
      var m := 0;
      while m < |ClearMarksList|
        invariant 0 <= m <= |ClearMarksList|
        invariant |words| == |tokens| && strip == tokens[j]
        invariant forall k :: 0 <= k < j ==> words[k] == ClearMarks(tokens[k])
        invariant forall k :: j < k < |words| ==> words[k] == tokens[k]
        invariant ClearFrom(strip, words[j], ClearMarksList[m..]) == ClearMarks(strip)
      {
        var mark := ClearMarksList[m];
        assert ClearMarksList[m..][1..] == ClearMarksList[m + 1..];
        if mark in strip {
          RemoveCharIsReplace(strip, mark);
          words := words[j := Replace(strip, [mark], "")];
        }
        m := m + 1;
      }
      j := j + 1;
    }
  }

  /** The first coordinate of `ps` that does not fit `uint32`, as the error of the cast. */
  function CheckUint32(ps: seq<Point>): (r: Result<seq<Point>>)
    ensures r.Ok? <==> forall i :: 0 <= i < |ps| ==> IsUint32(ps[i].x) && IsUint32(ps[i].y)
    ensures r.Ok? ==> r.value == ps
    ensures r.Err? ==> r.error.CoordinateOutOfRange? && !IsUint32(r.error.value)
  {
    if ps == [] then Ok([])
    else if !IsUint32(ps[0].x) then Err(CoordinateOutOfRange(ps[0].x))
    else if !IsUint32(ps[0].y) then Err(CoordinateOutOfRange(ps[0].y))
    else
      var rest := CheckUint32(ps[1..]);
      assert forall i :: 1 <= i < |ps| ==> ps[i] == ps[1..][i - 1];
      if rest.Err? then rest else Ok(ps)
  }

  /** `PageLine.get_shape`: the `points` of the line's `Coords` as `uint32` point pairs. */
  function PageShape(coords: Option<string>): (r: Result<seq<Point>>)
    ensures r.Ok? ==> coords.Some? && ParsePoints(coords.value) == Ok(r.value)
    ensures r.Ok? ==> forall i :: 0 <= i < |r.value| ==> IsUint32(r.value[i].x) && IsUint32(r.value[i].y)
    ensures coords.Some? && ParsePoints(coords.value).Ok? ==>
      (r.Ok? <==> forall p :: p in ParsePoints(coords.value).value ==> IsUint32(p.x) && IsUint32(p.y))
  {
    if coords.None? then Err(MissingValue)
    else
      var ps :- ParsePoints(coords.value);
      CheckUint32(ps)
  }

  /** `PageLine(element, reorder)`: a valid line gets `reorder` and its shape; an invalid one neither. */
  function PageTextLine(l: PageLine, reorder: bool): (r: Result<TextLine>)
    ensures r.Ok? ==> r.value.dialect == Page && r.value.id == l.id
    ensures r.Ok? ==> (r.value.valid <==> SetTextSpec(l) == Ok((true, r.value.words)))
    ensures r.Ok? && r.value.valid ==> r.value.reorder == Some(reorder) && PageShape(l.coords) == Ok(r.value.shape)
    ensures r.Ok? && !r.value.valid ==> r.value.reorder == None && r.value.words == []
  {
    var st :- SetTextSpec(l);
    if st.0 then
      var shape :- PageShape(l.coords);
      Ok(TextLine(Page, l.id, true, st.1, Some(reorder), shape))
    else Ok(TextLine(Page, l.id, false, [], None, []))
  }

  /** The constructor as the source runs it: `set_text`, then the shape of a valid line. */
  method NewPageLine(l: PageLine, reorder: bool) returns (r: Result<TextLine>)
    ensures r == PageTextLine(l, reorder)
  {
    var st := SetText(l);
    if st.Err? {
      return Err(st.error);
    }
    if st.value.0 {
      var shape := PageShape(l.coords);
      if shape.Err? {
        return Err(shape.error);
      }
      r := Ok(TextLine(Page, l.id, true, st.value.1, Some(reorder), shape.value));
    } else {
      r := Ok(TextLine(Page, l.id, false, [], None, []));
    }
  }

  /** A line without words whose coords give no usable centre is constructed, but invalid. */
  lemma {:induction false} WordlessInvalidLine(l: PageLine, reorder: bool)
    requires l.words == [] && Centre(l.coords).Ok? && !Usable(Centre(l.coords).value)
    ensures PageTextLine(l, reorder).Ok? && !PageTextLine(l, reorder).value.valid
  {
  }

  // ---------------------------------------------------------------- PAGE filter

  /** `textline.find('TextEquiv/Unicode').text`, where a missing element raises. */
  function LineText(l: PageLine): Result<string>
  {
    FirstUnicode(l.equivTexts)
  }

  predicate PageKeep(text: string, minLen: int)
  {
    text != "" && |Strip(text)| > 0 && |Strip(text)| >= minLen
  }

  /** Some `Word/TextEquiv/Unicode` below the line. */
  predicate HasWordText(l: PageLine)
  {
    exists i :: 0 <= i < |l.words| && l.words[i].equivTexts != []
  }

  /** Whether the filter loop of `get_page_lines` raises at a line. */
  predicate Refused(l: PageLine)
  {
    LineText(l).Err? || (LineText(l).value == "" && HasWordText(l))
  }

  /** The error the filter loop raises at a refused line. */
  function RefusalOf(base: string, l: PageLine): Error
  {
    if LineText(l).Err? then MissingValue else NoTextButWords(base, l.id)
  }

  /** One pass of the filter loop at line `l`, in front of what the rest of the loop gives. */
  function MatchOne(base: string, l: PageLine, minLen: int, rest: Result<seq<PageLine>>): Result<seq<PageLine>>
  {
    if LineText(l).Err? then Err(LineText(l).error)
    else if LineText(l).value == "" && HasWordText(l) then Err(NoTextButWords(base, l.id))
    else Prepend(if PageKeep(LineText(l).value, minLen) then [l] else [], rest)
  }

  /** The filter loop of `get_page_lines`: the lines whose own text passes, in document order. */
  function PageMatchings(base: string, ls: seq<PageLine>, minLen: int): (r: Result<seq<PageLine>>)
  {
    if ls == [] then Ok([]) else MatchOne(base, ls[0], minLen, PageMatchings(base, ls[1..], minLen))
  }

  /** The filter succeeds exactly when no line is refused, and then keeps exactly the lines whose stripped own
      text is non-empty and reaches `min_len`, in document order. */
  lemma {:induction false} PageMatchingsOk(base: string, ls: seq<PageLine>, minLen: int)
    ensures PageMatchings(base, ls, minLen).Ok? <==> forall i :: 0 <= i < |ls| ==> !Refused(ls[i])
    ensures PageMatchings(base, ls, minLen).Ok? ==>
      PageMatchings(base, ls, minLen).value == Filter(ls, l => LineText(l).Ok? && PageKeep(LineText(l).value, minLen))
  {
    if ls != [] {
      PageMatchingsOk(base, ls[1..], minLen);
      assert forall i :: 1 <= i < |ls| ==> ls[i] == ls[1..][i - 1];
    }
  }

  /** No line before position `k` is refused. */
  predicate ClearBefore(ls: seq<PageLine>, k: nat)
  {
    k <= |ls| && forall j :: 0 <= j < k ==> !Refused(ls[j])
  }

  /** A failing filter raises at the first refused line, with the error that line calls for. */
  lemma {:induction false} PageMatchingsErr(base: string, ls: seq<PageLine>, minLen: int)
    ensures PageMatchings(base, ls, minLen).Err? ==>
      exists k: nat :: k < |ls| && ClearBefore(ls, k) && Refused(ls[k]) && PageMatchings(base, ls, minLen).error == RefusalOf(base, ls[k])
  {
    if ls != [] && !Refused(ls[0]) {
      var rest := PageMatchings(base, ls[1..], minLen);
      PageMatchingsErr(base, ls[1..], minLen);
      if rest.Err? {
        var k: nat :| k < |ls[1..]| && ClearBefore(ls[1..], k) && Refused(ls[1..][k]) && rest.error == RefusalOf(base, ls[1..][k]);
        assert ls[k + 1] == ls[1..][k];
        forall j | 0 <= j < k + 1 ensures !Refused(ls[j]) {
          if j > 0 { assert ls[j] == ls[1..][j - 1]; }
        }
        assert ClearBefore(ls, k + 1);
      }
    }
  }

  /** There is only one first refused line. */
  lemma {:induction false} FirstRefusedUnique(ls: seq<PageLine>, a: nat, b: nat)
    requires a < |ls| && b < |ls| && ClearBefore(ls, a) && ClearBefore(ls, b) && Refused(ls[a]) && Refused(ls[b])
    ensures a == b
  {
  }

  /** The first refused line has an empty own text, words with text below it, and the id `id`. */
  predicate FatalAt(ls: seq<PageLine>, k: nat, id: string)
  {
    k < |ls| && ClearBefore(ls, k) && LineText(ls[k]) == Ok("") && HasWordText(ls[k]) && ls[k].id == id
  }

  /** The fatal error names the document and the line: it is raised for line `id` exactly when the first
      refused line has an empty text above word texts and carries that id. */
  lemma {:induction false} NoTextButWordsIff(base: string, ls: seq<PageLine>, minLen: int, id: string)
    ensures PageMatchings(base, ls, minLen) == Err(NoTextButWords(base, id)) <==> exists k: nat :: FatalAt(ls, k, id)
  {
    if PageMatchings(base, ls, minLen) == Err(NoTextButWords(base, id)) {
      NoTextButWordsRaised(base, ls, minLen, id);
    }
    if exists k: nat :: FatalAt(ls, k, id) {
      var k: nat :| FatalAt(ls, k, id);
      NoTextButWordsAt(base, ls, minLen, id, k);
    }
  }

  lemma {:induction false} NoTextButWordsRaised(base: string, ls: seq<PageLine>, minLen: int, id: string)
    requires PageMatchings(base, ls, minLen) == Err(NoTextButWords(base, id))
    ensures exists k: nat :: FatalAt(ls, k, id)
  {
    PageMatchingsErr(base, ls, minLen);
    var k: nat :| k < |ls| && ClearBefore(ls, k) && Refused(ls[k]) && PageMatchings(base, ls, minLen).error == RefusalOf(base, ls[k]);
    assert FatalAt(ls, k, id);
  }

  lemma {:induction false} NoTextButWordsAt(base: string, ls: seq<PageLine>, minLen: int, id: string, k: nat)
    requires FatalAt(ls, k, id)
    ensures PageMatchings(base, ls, minLen) == Err(NoTextButWords(base, id))
  {
    assert Refused(ls[k]);
    PageMatchingsOk(base, ls, minLen);
    PageMatchingsErr(base, ls, minLen);
    var k': nat :| k' < |ls| && ClearBefore(ls, k') && Refused(ls[k']) && PageMatchings(base, ls, minLen).error == RefusalOf(base, ls[k']);
    FirstRefusedUnique(ls, k, k');
  }

  /** `get_page_lines` as a composition: the filter, then a line object for each match. */
  function PageLinesSpec(base: string, ls: seq<PageLine>, minLen: int, reorder: bool): Result<seq<TextLine>>
  {
    var matchings :- PageMatchings(base, ls, minLen);
    Collect(matchings, (l: PageLine) => PageTextLine(l, reorder))
  }

  /** The filter loop from line `i` on. */
  function MatchFrom(base: string, ls: seq<PageLine>, minLen: int, i: nat): Result<seq<PageLine>>
    requires i <= |ls|
    decreases |ls| - i
  {
    if i == |ls| then Ok([]) else MatchOne(base, ls[i], minLen, MatchFrom(base, ls, minLen, i + 1))
  }

  lemma {:induction false} MatchFromSuffix(base: string, ls: seq<PageLine>, minLen: int, i: nat)
    requires i <= |ls|
    ensures MatchFrom(base, ls, minLen, i) == PageMatchings(base, ls[i..], minLen)
    decreases |ls| - i
  {
    if i < |ls| {
      MatchFromSuffix(base, ls, minLen, i + 1);
      assert ls[i..][0] == ls[i] && ls[i..][1..] == ls[i + 1..];
    }
  }

  lemma {:induction false} MatchFromStart(base: string, ls: seq<PageLine>, minLen: int)
    ensures MatchFrom(base, ls, minLen, 0) == PageMatchings(base, ls, minLen)
  {
    MatchFromSuffix(base, ls, minLen, 0);
    assert ls[0..] == ls;
  }

  /** The filter loop of `get_page_lines`. */
  method MatchPageLines(base: string, ls: seq<PageLine>, minLen: int) returns (r: Result<seq<PageLine>>)
    ensures r == PageMatchings(base, ls, minLen)
  {
    MatchFromStart(base, ls, minLen);
    var matchings: seq<PageLine> := [];
    var i := 0;
    PrependNil(MatchFrom(base, ls, minLen, 0));
    while i < |ls|
      invariant 0 <= i <= |ls|
      invariant MatchFrom(base, ls, minLen, 0) == Prepend(matchings, MatchFrom(base, ls, minLen, i))
    {
      ghost var rest := MatchFrom(base, ls, minLen, i + 1);
      var keep := MatchLine(base, ls[i], minLen, rest);
      if keep.Err? {
        return Err(keep.error);
      }
      PrependAppend(matchings, keep.value, rest);
      matchings := matchings + keep.value;
      i := i + 1;
    }
    assert matchings + [] == matchings;
    r := Ok(matchings);
  }

  /** One pass of the filter loop: the line is kept, dropped or refused, in front of `rest`. */
  method MatchLine(base: string, l: PageLine, minLen: int, ghost rest: Result<seq<PageLine>>)
    returns (r: Result<seq<PageLine>>)
    ensures r.Err? ==> MatchOne(base, l, minLen, rest) == Err(r.error)
    ensures r.Ok? ==> MatchOne(base, l, minLen, rest) == Prepend(r.value, rest)
  {
    var t := LineText(l);
    if t.Err? {
      return Err(t.error);
    }
    var keep: seq<PageLine> := [];
    if t.value != "" {
      var stripped := Strip(t.value);
      if |stripped| > 0 && |stripped| >= minLen {
        keep := [l];
      }
    } else if HasWordText(l) {
      return Err(NoTextButWords(base, l.id));
    }
    assert keep == if PageKeep(t.value, minLen) then [l] else [];
    r := Ok(keep);
  }

  /** `[PageLine(line, ns_prefix, reorder) for line in matchings]` */
  method BuildPageLines(matchings: seq<PageLine>, reorder: bool) returns (r: Result<seq<TextLine>>)
    ensures r == Collect(matchings, (l: PageLine) => PageTextLine(l, reorder))
  {
    var built: seq<TextLine> := [];
    var f := (l: PageLine) => PageTextLine(l, reorder);
    var n := 0;
    assert matchings[n..] == matchings;
    PrependNil(Collect(matchings, f));
    while n < |matchings|
      invariant 0 <= n <= |matchings|
      invariant Collect(matchings, f) == Prepend(built, Collect(matchings[n..], f))
    {
      CollectStep(matchings, f, n);
      var line := NewPageLine(matchings[n], reorder);
      if line.Err? {
        return Err(line.error);
      }
      PrependAppend(built, [line.value], Collect(matchings[n + 1..], f));
      built := built + [line.value];
      n := n + 1;
    }
    assert matchings[n..] == [];
    assert built + [] == built;
    r := Ok(built);
  }

  /** The source's `get_page_lines`: the filter loop, then the constructors. */
  method GetPageLines(base: string, ls: seq<PageLine>, minLen: int, reorder: bool) returns (r: Result<seq<TextLine>>)
    ensures r == PageLinesSpec(base, ls, minLen, reorder)
  {
    var matchings := MatchPageLines(base, ls, minLen);
    if matchings.Err? {
      return Err(matchings.error);
    }
    r := BuildPageLines(matchings.value, reorder);
  }

  // ---------------------------------------------------------------- factory

  /** `text_line_factory`: the dialect named by the root namespace picks the line extraction, and only
      valid lines are returned. */
  function FactorySpec(doc: Document, minLen: int, reorder: bool): (r: Result<seq<TextLine>>)
    ensures Lookup(XmlNs, doc.uri).Err? ==> r == Err(UnregisteredNamespace(doc.uri))
    ensures r.Ok? ==> forall i :: 0 <= i < |r.value| ==> r.value[i].valid
  {
    var prefix :- Lookup(XmlNs, doc.uri);
    var lines :- if IsAltoPrefix(prefix) then GetAltoLines(doc.altoLines, minLen)
                 else if IsPagePrefix(prefix) then PageLinesSpec(doc.base, doc.pageLines, minLen, reorder)
                 else Ok([]);
    Ok(Filter(lines, (t: TextLine) => t.valid))
  }

  method TextLineFactory(doc: Document, minLen: int, reorder: bool) returns (r: Result<seq<TextLine>>)
    ensures r == FactorySpec(doc, minLen, reorder)
  {
    var prefix := Lookup(XmlNs, doc.uri);
    if prefix.Err? {
      return Err(prefix.error);
    }
    var lines: Result<seq<TextLine>> := Ok([]);
    if IsAltoPrefix(prefix.value) {
      lines := GetAltoLines(doc.altoLines, minLen);
    } else if IsPagePrefix(prefix.value) {
      lines := GetPageLines(doc.base, doc.pageLines, minLen, reorder);
    }
    if lines.Err? {
      return Err(lines.error);
    }
    r := Ok(Filter(lines.value, (t: TextLine) => t.valid));
  }

  /** An ALTO document (either version) yields ALTO lines whose content is never reversed. */
  lemma {:induction false} FactoryAlto(doc: Document, minLen: int, reorder: bool, t: TextLine)
    requires doc.uri == XmlNs[0].1 || doc.uri == XmlNs[1].1
    requires FactorySpec(doc, minLen, reorder).Ok? && t in FactorySpec(doc, minLen, reorder).value
    ensures t.dialect == Alto && t.valid && Content(t) == Ok(Join(t.words, " "))
  {
    LookupXmlNs();
    XmlNsDialects();
    var prefix := Lookup(XmlNs, doc.uri).value;
    assert IsAltoPrefix(prefix);
    var lines := GetAltoLines(doc.altoLines, minLen);
    assert FactorySpec(doc, minLen, reorder).value == Filter(lines.value, (t: TextLine) => t.valid);
    assert t in lines.value;
    var kept := Filter(doc.altoLines, (l: AltoLine) => HasContents(l) && AltoKeep(minLen, l));
    var k :| 0 <= k < |lines.value| && lines.value[k] == t;
    assert AltoTextLine(kept[k]) == Ok(t);
  }

  /** A PAGE document (either version) yields valid PAGE lines carrying the requested `reorder`. */
  lemma {:induction false} FactoryPage(doc: Document, minLen: int, reorder: bool, t: TextLine)
    requires doc.uri == XmlNs[2].1 || doc.uri == XmlNs[3].1
    requires FactorySpec(doc, minLen, reorder).Ok? && t in FactorySpec(doc, minLen, reorder).value
    ensures t.dialect == Page && t.valid && t.reorder == Some(reorder)
  {
    LookupXmlNs();
    XmlNsDialects();
    var lines := PageLinesSpec(doc.base, doc.pageLines, minLen, reorder);
    assert FactorySpec(doc, minLen, reorder).value == Filter(lines.value, (t: TextLine) => t.valid);
    assert t in lines.value && t.valid;
    PageLinesItem(doc.base, doc.pageLines, minLen, reorder, t);
  }

  /** Every line the PAGE extraction yields is a PAGE line, and a valid one carries the reorder flag. */
  lemma {:induction false} PageLinesItem(base: string, ls: seq<PageLine>, minLen: int, reorder: bool, t: TextLine)
    requires PageLinesSpec(base, ls, minLen, reorder).Ok? && t in PageLinesSpec(base, ls, minLen, reorder).value
    ensures t.dialect == Page && (t.valid ==> t.reorder == Some(reorder))
  {
    var lines := PageLinesSpec(base, ls, minLen, reorder).value;
    var matchings := PageMatchings(base, ls, minLen).value;
    var k :| 0 <= k < |lines| && lines[k] == t;
    assert PageTextLine(matchings[k], reorder) == Ok(t);
  }

}
