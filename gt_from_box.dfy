/** `generate_gt_from_box.py`: the ground-truth text recovered from a box file. Each box line gives
    its first field; a space box, whose line starts with two spaces, is saved from the split by a
    sentinel character that becomes a space again at the end, and every tab box turns into a newline. */
module GtFromBox {
  import opened Common
  import opened Text
  import opened Boxes
  import LineBox

  /** The stand-in for a space symbol, U+4F4D. */
  const Sentinel: char := '位'

  /** What Python's text mode reads: `"\r\n"` and a lone `"\r"` each become `"\n"`. */
  function ReadNewlines(s: string): (r: string)
    ensures '\r' !in r
  {
    if s == [] then []
    else if s[0] == '\r' then "\n" + (if |s| > 1 && s[1] == '\n' then ReadNewlines(s[2..]) else ReadNewlines(s[1..]))
    else [s[0]] + ReadNewlines(s[1..])
  }

  lemma {:induction false} ReadNewlinesPlain(s: string)
    requires '\r' !in s
    ensures ReadNewlines(s) == s
  {
    if s != [] {
      ReadNewlinesPlain(s[1..]);
    }
  }

  /** `for line in boxfile`: the lines of the text, each with its newline, the last one without one
      when the text does not end in a newline. */
  function KeepEnds(s: string): (r: seq<string>)
    decreases |s|
  {
    if s == [] then []
    else
      var k := IndexOf(s, '\n');
      if k == |s| then [s] else [s[..k + 1]] + KeepEnds(s[k + 1..])
  }

  /** `line.replace("  ", "位 ").split(' ', 1)[0]`: the text before the first space once every two
      spaces in a row have become the sentinel and a space. */
  function FirstField(line: string): string
  {
    BeforeFirst(Replace(line, "  ", [Sentinel, ' ']), ' ')
  }

  /** `''.join(... for line in lines if line)` */
  function FirstFields(lines: seq<string>): string
  {
    if lines == [] then "" else (if lines[0] == "" then "" else FirstField(lines[0])) + FirstFields(lines[1..])
  }

  /** The content written to the ground-truth file: the joined fields and the newline `print` adds,
      the sentinel turned back into a space and the tabs into newlines, then one more newline from the
      second `print`. */
  function GroundTruth(box: string): string
  {
    var joined := FirstFields(KeepEnds(ReadNewlines(box)));
    var gt := Replace(Replace(joined + "\n", [Sentinel], " "), "\t", "\n");
    gt + "\n"
  }

  // ---------------------------------------------------------------- one record

  /** The field a printed record contributes. */
  function FieldOf(r: Record): string
  {
    FirstField(Render(r) + "\n")
  }

  /** A record whose symbol is one character contributes that character, the sentinel for a space. */
  lemma {:induction false} OneCharField(r: Record, c: char)
    requires r.symbol == [c] && r.comment == None
    ensures FieldOf(r) == [if c == ' ' then Sentinel else c]
  {
    var co := Coordinates(r);
    CoordinatesShape(r);
    NoDoubleSpaceNewline(co);
    assert Render(r) + "\n" == [c] + (co + "\n");
    FieldAfterSymbol(c, co + "\n");
  }

  /** One character followed by a space, a non-space and no two spaces in a row: the field is the
      character, or the sentinel when the character is itself a space. */
  lemma {:induction false} FieldAfterSymbol(c: char, t: string)
    requires |t| >= 2 && t[0] == ' ' && t[1] != ' ' && NoDoubleSpace(t)
    ensures FirstField([c] + t) == [if c == ' ' then Sentinel else c]
  {
    var u := t[1..];
    NoDoubleSpaceTail(t);
    ReplaceNoDoubleSpace(u, [Sentinel, ' ']);
    if c == ' ' {
      var line := [c] + t;
      assert line[..2] == "  " && line[2..] == u;
      var rep := [Sentinel, ' '] + u;
      assert Replace(line, "  ", [Sentinel, ' ']) == rep;
      assert IndexOf(rep, ' ') == 1 by {
        assert rep == [Sentinel] + [' '] + u;
        IndexOfPrefix([Sentinel], ' ', u);
      }
    } else {
      ReplaceNoDoubleSpace(t, [Sentinel, ' ']);
      var line := [c] + t;
      assert line[..2] != "  " by {
        assert line[..2][0] == c;
      }
      assert line[1..] == t;
      assert Replace(line, "  ", [Sentinel, ' ']) == line;
      assert IndexOf(line, ' ') == 1 by {
        assert line == [c] + [' '] + u;
        IndexOfPrefix([c], ' ', u);
      }
    }
  }

  /** The space box contributes the sentinel, and with it a space in the end. */
  lemma {:induction false} SpaceBoxField(width: int, height: int)
    ensures FieldOf(Glyph(" ", width, height)) == [Sentinel]
  {
    OneCharField(Glyph(" ", width, height), ' ');
  }

  /** An end-of-line box contributes a tab, and with it a newline in the end. */
  lemma {:induction false} EndBoxField(width: int, height: int)
    ensures FieldOf(LineEnd(width, height)) == "\t"
  {
    OneCharField(LineEnd(width, height), '\t');
  }

  /** Why the round trip needs plain text: a sentinel in the ground truth reads back as a space, and a
      tab as a newline, exactly like the space box and the end-of-line box. */
  lemma {:induction false} SentinelReadsAsSpace(width: int, height: int)
    ensures Glyph([Sentinel], width, height) != Glyph(" ", width, height)
    ensures Restore(FieldOf(Glyph([Sentinel], width, height))) == Restore(FieldOf(Glyph(" ", width, height))) == " "
  {
    OneCharField(Glyph([Sentinel], width, height), Sentinel);
    SpaceBoxField(width, height);
    assert Restore([Sentinel]) == " ";
  }

  lemma {:induction false} TabReadsAsNewline(width: int, height: int)
    ensures Glyph("\t", width, height) != LineEnd(width, height)
    ensures Restore(FieldOf(Glyph("\t", width, height))) == Restore(FieldOf(LineEnd(width, height))) == "\n"
  {
    OneCharField(Glyph("\t", width, height), '\t');
    EndBoxField(width, height);
    assert Restore("\t") == "\n";
  }

  // ---------------------------------------------------------------- a printed box file

  /** The fields of a run of records, in order. */
  function Fields(rs: seq<Record>): string
  {
    if rs == [] then "" else FieldOf(rs[0]) + Fields(rs[1..])
  }

  lemma {:induction false} FieldsAppend(a: seq<Record>, b: seq<Record>)
    ensures Fields(a + b) == Fields(a) + Fields(b)
  {
    if a == [] {
      assert a + b == b;
    } else {
      assert (a + b)[1..] == a[1..] + b;
      FieldsAppend(a[1..], b);
    }
  }

  /** Read back line by line, a printed run of records gives each record's field: no record holds a
      newline, so each line of the file is one record and its newline. */
  lemma {:induction false} PrintedFields(rs: seq<Record>)
    requires PlainRecords(rs)
    ensures FirstFields(KeepEnds(Printed(rs))) == Fields(rs)
  {
    if rs != [] {
      var r := rs[0];
      var rest := Printed(rs[1..]);
      var line := Render(r);
      RenderPlain(r);
      var s := line + "\n" + rest;
      assert Printed(rs) == s;
      IndexOfPrefix(line, '\n', rest);
      assert s[..|line| + 1] == line + "\n";
      assert s[|line| + 1..] == rest;
      assert KeepEnds(s) == [line + "\n"] + KeepEnds(rest);
      assert ([line + "\n"] + KeepEnds(rest))[1..] == KeepEnds(rest);
      PrintedFields(rs[1..]);
    }
  }

  // ---------------------------------------------------------------- the round trip

  /** The replace chain at the end of the script, as substitutions. */
  function Restore(s: string): string
  {
    Subst(Subst(s, Sentinel, ' '), '\t', '\n')
  }

  lemma {:induction false} RestoreAppend(x: string, y: string)
    ensures Restore(x + y) == Restore(x) + Restore(y)
  {
    SubstAppend(x, y, Sentinel, ' ');
    SubstAppend(Subst(x, Sentinel, ' '), Subst(y, Sentinel, ' '), '\t', '\n');
  }

  /** Characters a line may hold for the round trip. */
  predicate Plain(c: char, combining: set<char>)
  {
    c !in combining && c != '\t' && c != Sentinel && c != '\r'
  }

  /** The glyph boxes of a line's characters, one each, give the line with each space replaced by the
      sentinel. */
  lemma {:induction false} GlyphFields(line: string, symbols: seq<string>, width: nat, height: nat)
    requires |symbols| == |line| && forall j :: 0 <= j < |line| ==> symbols[j] == [line[j]]
    ensures Fields(Glyphs(symbols, width, height)) == Subst(line, ' ', Sentinel)
  {
    if line != [] {
      GlyphFields(line[1..], symbols[1..], width, height);
      OneCharField(Glyph(symbols[0], width, height), line[0]);
    }
  }

  /** The glyph boxes of a plain line's characters, one each, read back as the line. */
  lemma {:induction false} GlyphsRestored(line: string, symbols: seq<string>, width: nat, height: nat, combining: set<char>)
    requires PlainLine(line, combining)
    requires |symbols| == |line| && forall j :: 0 <= j < |line| ==> symbols[j] == [line[j]]
    ensures Restore(Fields(Glyphs(symbols, width, height))) == line
  {
    GlyphFields(line, symbols, width, height);
    assert Sentinel !in line && '\t' !in line by {
      forall j | 0 <= j < |line| ensures line[j] != Sentinel && line[j] != '\t' {
        assert Plain(line[j], combining);
      }
    }
    SubstBack(line, ' ', Sentinel);
    SubstAbsent(line, '\t', '\n');
  }

  /** The boxes of one plain line read back as the line and a newline, or as nothing for a blank line. */
  lemma {:induction false} LineRoundTrip(line: string, width: nat, height: nat, combining: set<char>)
    requires PlainLine(line, combining)
    ensures Restore(Fields(LineBox.LineRecords(line, width, height, combining))) == Terminated(line)
  {
    if Strip(line) != [] {
      GlyphsAndEndRestored(line, width, height, combining);
    }
  }

  lemma {:induction false} GlyphsAndEndRestored(line: string, width: nat, height: nat, combining: set<char>)
    requires PlainLine(line, combining)
    ensures Restore(Fields(Glyphs(LineBox.Symbols(line, combining), width, height) + [LineEnd(width, height)])) == line + "\n"
  {
    var g := Glyphs(LineBox.Symbols(line, combining), width, height);
    SymbolsRestored(line, width, height, combining);
    EndRestored(g, width, height);
  }

  /** Without combining characters, every character of the line is its own symbol. */
  lemma {:induction false} SymbolsRestored(line: string, width: nat, height: nat, combining: set<char>)
    requires PlainLine(line, combining)
    ensures Restore(Fields(Glyphs(LineBox.Symbols(line, combining), width, height))) == line
  {
    assert forall j :: 0 <= j < |line| ==> line[j] !in combining by {
      forall j | 0 <= j < |line| ensures line[j] !in combining {
        assert Plain(line[j], combining);
      }
    }
    LineBox.PlainOwedTo(line, |line|, combining);
    GlyphsRestored(line, LineBox.Symbols(line, combining), width, height, combining);
  }

  /** The end-of-line box reads back as a newline after whatever came before it. */
  lemma {:induction false} EndRestored(g: seq<Record>, width: nat, height: nat)
    ensures Restore(Fields(g + [LineEnd(width, height)])) == Restore(Fields(g)) + "\n"
  {
    FieldsAppend(g, [LineEnd(width, height)]);
    EndBoxField(width, height);
    assert Fields([LineEnd(width, height)]) == "\t";
    RestoreAppend(Fields(g), "\t");
    assert Restore("\t") == "\n";
  }

  /** A ground-truth line as the round trip gives it back: nothing for a blank line, else the line and a
      newline. */
  function Terminated(line: string): string
  {
    if Strip(line) == [] then "" else line + "\n"
  }

  /** The first `k` lines, each as the round trip gives it back. */
  function TerminatedTo(lines: seq<string>, k: nat): string
    requires k <= |lines|
  {
    if k == 0 then "" else TerminatedTo(lines, k - 1) + Terminated(lines[k - 1])
  }

  /** Every character of the line is plain. */
  predicate PlainLine(line: string, combining: set<char>)
  {
    forall j :: 0 <= j < |line| ==> Plain(line[j], combining) && line[j] != '\n'
  }

  /** The first `k` lines are plain. */
  predicate PlainUpTo(lines: seq<string>, k: nat, combining: set<char>)
    requires k <= |lines|
  {
    k == 0 || (PlainUpTo(lines, k - 1, combining) && PlainLine(lines[k - 1], combining))
  }

  lemma {:induction false} LinesRoundTrip(lines: seq<string>, k: nat, width: nat, height: nat, combining: set<char>)
    requires k <= |lines| && PlainUpTo(lines, k, combining)
    ensures Restore(Fields(LineBox.RecordsTo(lines, k, width, height, combining))) == TerminatedTo(lines, k)
  {
    if k > 0 {
      LinesRoundTrip(lines, k - 1, width, height, combining);
      var a := LineBox.RecordsTo(lines, k - 1, width, height, combining);
      var b := LineBox.LineRecords(lines[k - 1], width, height, combining);
      LineBox.RecordsToStep(lines, k - 1, width, height, combining);
      FieldsAppend(a, b);
      RestoreAppend(Fields(a), Fields(b));
      LineRoundTrip(lines[k - 1], width, height, combining);
    } else {
      assert Restore("") == "";
    }
  }

  /** Every character of the text is a newline or plain. */
  predicate PlainText(s: string, combining: set<char>)
  {
    forall i :: 0 <= i < |s| ==> s[i] == '\n' || Plain(s[i], combining)
  }

  /** The lines a plain text splits into are plain. */
  lemma {:induction false} SplitPlain(s: string, combining: set<char>)
    requires PlainText(s, combining)
    ensures forall i :: 0 <= i < |SplitOn(s, '\n')| ==> PlainLine(SplitOn(s, '\n')[i], combining)
    decreases |s|
  {
    var k := IndexOf(s, '\n');
    var head := s[..k];
    var r := SplitOn(s, '\n');
    if k < |s| {
      var t := s[k + 1..];
      HeadPlain(s, k, combining);
      assert PlainText(t, combining) by {
        forall j | 0 <= j < |t| ensures t[j] == '\n' || Plain(t[j], combining) {
          assert t[j] == s[k + 1 + j];
        }
      }
      SplitPlain(t, combining);
      assert r == [head] + SplitOn(t, '\n');
      ConsPlain(head, SplitOn(t, '\n'), combining);
    } else {
      HeadPlain(s, k, combining);
      assert r == [s] && head == s;
    }
  }

  lemma {:induction false} ConsPlain(head: string, rest: seq<string>, combining: set<char>)
    requires PlainLine(head, combining) && forall i :: 0 <= i < |rest| ==> PlainLine(rest[i], combining)
    ensures forall i :: 0 <= i < |[head] + rest| ==> PlainLine(([head] + rest)[i], combining)
  {
    forall i | 0 <= i < |[head] + rest| ensures PlainLine(([head] + rest)[i], combining) {
      if i > 0 {
        assert ([head] + rest)[i] == rest[i - 1];
      }
    }
  }

  /** The text before the first newline of a plain text is a plain line. */
  lemma {:induction false} HeadPlain(s: string, k: nat, combining: set<char>)
    requires PlainText(s, combining) && k == IndexOf(s, '\n')
    ensures PlainLine(s[..k], combining)
  {
    var head := s[..k];
    forall j | 0 <= j < |head| ensures Plain(head[j], combining) && head[j] != '\n' {
      assert head[j] == s[j];
      assert head[j] in s[..k];
    }
  }

  /** The lines of a text of plain characters are plain. */
  lemma {:induction false} FileLinesPlain(text: string, combining: set<char>)
    requires PlainText(text, combining)
    ensures var lines := LineBox.FileLines(text);
      forall i :: 0 <= i < |lines| ==> PlainLine(lines[i], combining)
  {
    StripSpec(text);
    var a := LeadLen(text);
    var r := Strip(text);
    assert PlainText(r, combining) by {
      forall j | 0 <= j < |r| ensures r[j] == '\n' || Plain(r[j], combining) {
        assert r[j] == text[a + j];
      }
    }
    SplitPlain(r, combining);
  }

  lemma {:induction false} AllPlainUpTo(lines: seq<string>, k: nat, combining: set<char>)
    requires k <= |lines|
    requires forall i :: 0 <= i < |lines| ==> PlainLine(lines[i], combining)
    ensures PlainUpTo(lines, k, combining)
  {
    if k > 0 {
      AllPlainUpTo(lines, k - 1, combining);
    }
  }

  /** The records printed for a ground truth without combining characters, tabs, sentinels or carriage
      returns read back as its non-blank lines, each followed by a newline, then two newlines: the one
      the first `print` adds and the one the second adds. */
  lemma {:induction false} RoundTrip(text: string, width: nat, height: nat, combining: set<char>)
    requires PlainText(text, combining)
    ensures var lines := LineBox.FileLines(text);
      GroundTruth(Printed(LineBox.BoxFile(text, width, height, combining))) == TerminatedTo(lines, |lines|) + "\n\n"
  {
    var lines := LineBox.FileLines(text);
    var rs := LineBox.BoxFile(text, width, height, combining);
    FileLinesPlain(text, combining);
    AllPlainUpTo(lines, |lines|, combining);
    LinesRoundTrip(lines, |lines|, width, height, combining);
    RecordsPlain(lines, |lines|, width, height, combining);
    PrintedRoundTrip(rs);
  }

  /** Read back by the script, printed plain records give their restored fields and two newlines. */
  lemma {:induction false} PrintedRoundTrip(rs: seq<Record>)
    requires PlainRecords(rs)
    ensures GroundTruth(Printed(rs)) == Restore(Fields(rs)) + "\n\n"
  {
    var fields := Fields(rs);
    PrintedPlain(rs);
    GroundTruthPlain(Printed(rs));
    PrintedFields(rs);
    assert GroundTruth(Printed(rs)) == Restore(fields + "\n") + "\n";
    RestoreNewline(fields);
    assert Restore(fields) + "\n" + "\n" == Restore(fields) + "\n\n";
  }

  /** Restoring leaves a trailing newline in place. */
  lemma {:induction false} RestoreNewline(x: string)
    ensures Restore(x + "\n") == Restore(x) + "\n"
  {
    RestoreAppend(x, "\n");
    assert Restore("\n") == "\n";
  }

  /** Without carriage returns, the ground truth is the restored first fields and two newlines. */
  lemma {:induction false} GroundTruthPlain(box: string)
    requires '\r' !in box
    ensures GroundTruth(box) == Restore(FirstFields(KeepEnds(box)) + "\n") + "\n"
  {
    ReadNewlinesPlain(box);
    var joined := FirstFields(KeepEnds(box)) + "\n";
    ReplaceOneChar(joined, Sentinel, ' ');
    ReplaceOneChar(Subst(joined, Sentinel, ' '), '\t', '\n');
  }

  /** A record whose lines can be read back one by one: no newline or carriage return in the symbol,
      and no comment. */
  predicate PlainRecord(r: Record)
  {
    '\n' !in r.symbol && '\r' !in r.symbol && r.comment == None
  }

  predicate PlainRecords(rs: seq<Record>)
  {
    forall i :: 0 <= i < |rs| ==> PlainRecord(rs[i])
  }

  lemma {:induction false} PlainRecordsAppend(a: seq<Record>, b: seq<Record>)
    requires PlainRecords(a) && PlainRecords(b)
    ensures PlainRecords(a + b)
  {
    forall i | 0 <= i < |a + b| ensures PlainRecord((a + b)[i]) {
      if i < |a| {
        assert (a + b)[i] == a[i];
      } else {
        assert (a + b)[i] == b[i - |a|];
      }
    }
  }

  /** No record of the line box tool holds a newline, a carriage return or a comment. */
  lemma {:induction false} RecordsPlain(lines: seq<string>, k: nat, width: nat, height: nat, combining: set<char>)
    requires k <= |lines| && PlainUpTo(lines, k, combining)
    ensures PlainRecords(LineBox.RecordsTo(lines, k, width, height, combining))
  {
    if k > 0 {
      RecordsPlain(lines, k - 1, width, height, combining);
      LineBox.RecordsToStep(lines, k - 1, width, height, combining);
      LineRecordsPlain(lines[k - 1], width, height, combining);
      PlainRecordsAppend(LineBox.RecordsTo(lines, k - 1, width, height, combining),
        LineBox.LineRecords(lines[k - 1], width, height, combining));
    }
  }

  lemma {:induction false} LineRecordsPlain(line: string, width: nat, height: nat, combining: set<char>)
    requires PlainLine(line, combining)
    ensures PlainRecords(LineBox.LineRecords(line, width, height, combining))
  {
    if Strip(line) != [] {
      var syms := LineBox.Symbols(line, combining);
      assert forall j :: 0 <= j < |line| ==> line[j] !in combining by {
        forall j | 0 <= j < |line| ensures line[j] !in combining {
          assert Plain(line[j], combining);
        }
      }
      LineBox.PlainOwedTo(line, |line|, combining);
      GlyphsIndex(syms, width, height);
      var g := Glyphs(syms, width, height);
      forall i | 0 <= i < |g| ensures PlainRecord(g[i]) {
        assert g[i].symbol == [line[i]];
      }
      PlainRecordsAppend(g, [LineEnd(width, height)]);
    }
  }

  /** Printed plain records hold no carriage return. */
  lemma {:induction false} PrintedPlain(rs: seq<Record>)
    requires PlainRecords(rs)
    ensures '\r' !in Printed(rs)
  {
    if rs != [] {
      PrintedPlain(rs[1..]);
      RenderPlain(rs[0]);
    }
  }

  /** A plain record renders as one line without a carriage return. */
  lemma {:induction false} RenderPlain(r: Record)
    requires PlainRecord(r)
    ensures '\n' !in Render(r) && '\r' !in Render(r)
  {
    CoordinatesShape(r);
    var co := Coordinates(r);
    assert '\n' !in co && '\r' !in co by {
      forall i | 0 <= i < |co| ensures co[i] != '\n' && co[i] != '\r' {
        assert CoordinateChar(co[i]);
      }
    }
    assert Render(r) == r.symbol + co;
  }
}
