/** `generate_line_box.py`: one box per character of each ground-truth line, a combining character
    fused with the character before it, and a tab box closing every line. Whether a character is
    combining (`unicodedata.combining(c) != 0`) comes from the Unicode database: the set `combining` of
    such characters is a parameter. */
module LineBox {
  import opened Common
  import opened Text
  import opened Boxes

  /** The lines the script reads: the whole file stripped, then split on newlines. */
  function FileLines(text: string): seq<string>
  {
    SplitOn(Strip(text), '\n')
  }

  /** The symbols owed to the character at index `j`: a combining character is fused with its
      predecessor (and owes nothing at index 0); a non-combining character stands alone unless a
      combining character follows it. */
  function Owed(line: string, j: nat, combining: set<char>): seq<string>
    requires j < |line|
  {
    if line[j] in combining then (if j >= 1 then [[line[j - 1], line[j]]] else [])
    else if j + 1 < |line| && line[j + 1] in combining then []
    else [[line[j]]]
  }

  /** The symbols owed to the first `k` characters, in order. */
  function OwedTo(line: string, k: nat, combining: set<char>): seq<string>
    requires k <= |line|
  {
    if k == 0 then [] else OwedTo(line, k - 1, combining) + Owed(line, k - 1, combining)
  }

  /** The symbols of a line: every character's, in order. */
  function Symbols(line: string, combining: set<char>): seq<string>
  {
    OwedTo(line, |line|, combining)
  }

  /** The boxes of one line: none for a blank line, else a glyph per symbol and the end-of-line box. */
  function LineRecords(line: string, width: nat, height: nat, combining: set<char>): seq<Record>
  {
    if Strip(line) == [] then [] else Glyphs(Symbols(line, combining), width, height) + [LineEnd(width, height)]
  }

  /** The boxes of the first `k` lines, line after line. */
  function RecordsTo(lines: seq<string>, k: nat, width: nat, height: nat, combining: set<char>): seq<Record>
    requires k <= |lines|
  {
    if k == 0 then [] else RecordsTo(lines, k - 1, width, height, combining) + LineRecords(lines[k - 1], width, height, combining)
  }

  lemma {:induction false} RecordsToStep(lines: seq<string>, k: nat, width: nat, height: nat, combining: set<char>)
    requires k < |lines|
    ensures RecordsTo(lines, k + 1, width, height, combining) == RecordsTo(lines, k, width, height, combining) + LineRecords(lines[k], width, height, combining)
  {
  }

  /** Everything the script prints for a ground-truth text. */
  function BoxFile(text: string, width: nat, height: nat, combining: set<char>): seq<Record>
  {
    var lines := FileLines(text);
    RecordsTo(lines, |lines|, width, height, combining)
  }

  /** The script's main loop: each line of the stripped file in turn. */
  method GenerateLineBox(text: string, width: nat, height: nat, combining: set<char>) returns (out: seq<Record>)
    ensures out == BoxFile(text, width, height, combining)
  {
    var lines := SplitOn(Strip(text), '\n');
    out := [];
    var k := 0;
    while k < |lines|
      invariant 0 <= k <= |lines|
      invariant out == RecordsTo(lines, k, width, height, combining)
    {
      var rs := LineBoxes(lines[k], width, height, combining);
      RecordsToStep(lines, k, width, height, combining);
      out := out + rs;
      k := k + 1;
    }
  }

  /** One line: nothing for a blank line, else the glyphs of the loop and the end-of-line box. */
  method LineBoxes(line: string, width: nat, height: nat, combining: set<char>) returns (rs: seq<Record>)
    ensures rs == LineRecords(line, width, height, combining)
  {
    rs := [];
    if Strip(line) != [] {
      StripSpec(line);
      var gs := GlyphLoop(line, width, height, combining);
      rs := gs + [LineEnd(width, height)];
    }
  }

  /** The loop over `i` from 1 compares each character with the one before it. The glyph of the
      character before `i` waits until the character at `i` shows whether it is combining. */
  method GlyphLoop(line: string, width: nat, height: nat, combining: set<char>) returns (rs: seq<Record>)
    requires line != []
    ensures rs == Glyphs(Symbols(line, combining), width, height)
  {
    rs := [];
    var i := 1;
    ghost var done: seq<string> := [];
    while i < |line|
      invariant 1 <= i <= |line|
      invariant done == OwedTo(line, i - 1, combining) + Pending(line, i - 1, combining)
      invariant rs == Glyphs(done, width, height)
    {
      var c := line[i];
      var prev := line[i - 1];
      OwedStep(line, i, combining);
      if c in combining {
        GlyphsSnoc(done, [prev, c], width, height);
        rs := rs + [Glyph([prev, c], width, height)];
        done := done + [[prev, c]];
      } else if prev !in combining {
        GlyphsSnoc(done, [prev], width, height);
        rs := rs + [Glyph([prev], width, height)];
        done := done + [[prev]];
      }
      i := i + 1;
    }
    var last := line[|line| - 1];
    OwedLast(line, combining);
    if last !in combining {
      GlyphsSnoc(done, [last], width, height);
      rs := rs + [Glyph([last], width, height)];
      done := done + [[last]];
    } else {
      assert done + [] == done;
    }
    assert done == Symbols(line, combining);
  }

  /** What the character at `j` owes once the character after it is known, before that is seen only
      its fused glyph: a non-combining character still waits. */
  function Pending(line: string, j: nat, combining: set<char>): seq<string>
    requires j < |line|
  {
    if line[j] in combining then Owed(line, j, combining) else []
  }

  /** After the loop only the last character's glyph can still be waiting. */
  lemma {:induction false} OwedLast(line: string, combining: set<char>)
    requires line != []
    ensures Symbols(line, combining) == OwedTo(line, |line| - 1, combining) + Pending(line, |line| - 1, combining) +
      (if line[|line| - 1] in combining then [] else [[line[|line| - 1]]])
  {
  }

  /** One step of the loop at index `i`: the glyph emitted there completes the previous character's
      symbols and starts the current one's. */
  lemma {:induction false} OwedStep(line: string, i: nat, combining: set<char>)
    requires 1 <= i < |line|
    ensures line[i] in combining ==>
      OwedTo(line, i - 1, combining) + Pending(line, i - 1, combining) + [[line[i - 1], line[i]]] ==
      OwedTo(line, i, combining) + Pending(line, i, combining)
    ensures line[i] !in combining && line[i - 1] !in combining ==>
      OwedTo(line, i - 1, combining) + Pending(line, i - 1, combining) + [[line[i - 1]]] ==
      OwedTo(line, i, combining) + Pending(line, i, combining)
    ensures line[i] !in combining && line[i - 1] in combining ==>
      OwedTo(line, i - 1, combining) + Pending(line, i - 1, combining) == OwedTo(line, i, combining) + Pending(line, i, combining)
  {
  }

  // ---------------------------------------------------------------- properties of the boxes

  /** A line that is empty or whitespace only prints no box at all. */
  lemma {:induction false} BlankLineNoBoxes(line: string, width: nat, height: nat, combining: set<char>)
    requires AllSpace(line)
    ensures LineRecords(line, width, height, combining) == []
  {
    StripSpec(line);
  }

  /** Every other line ends with exactly one end-of-line box, after all its glyph boxes. */
  lemma {:induction false} NonBlankLineEnds(line: string, width: nat, height: nat, combining: set<char>)
    requires !AllSpace(line)
    ensures var r := LineRecords(line, width, height, combining);
      r != [] && r[|r| - 1] == LineEnd(width, height) &&
      forall i :: 0 <= i < |r| - 1 ==> r[i] != LineEnd(width, height) && r[i].symbol in Symbols(line, combining)
  {
    StripSpec(line);
    var r := LineRecords(line, width, height, combining);
    var g := Glyphs(Symbols(line, combining), width, height);
    GlyphsIndex(Symbols(line, combining), width, height);
    assert r == g + [LineEnd(width, height)];
    forall i | 0 <= i < |r| - 1
      ensures r[i] != LineEnd(width, height) && r[i].symbol in Symbols(line, combining)
    {
      assert r[i] == g[i] == Glyph(Symbols(line, combining)[i], width, height);
      GlyphIsNotLineEnd(Symbols(line, combining)[i], width, height);
    }
  }

  /** Without combining characters every character gets a box of its own, in order. */
  lemma {:induction false} PlainOwedTo(line: string, k: nat, combining: set<char>)
    requires k <= |line|
    requires forall j :: 0 <= j < |line| ==> line[j] !in combining
    ensures |OwedTo(line, k, combining)| == k
    ensures forall j :: 0 <= j < k ==> OwedTo(line, k, combining)[j] == [line[j]]
  {
    if k > 0 {
      PlainOwedTo(line, k - 1, combining);
      assert Owed(line, k - 1, combining) == [[line[k - 1]]];
    }
  }

  lemma {:induction false} PlainLineOneBoxPerChar(line: string, width: nat, height: nat, combining: set<char>)
    requires !AllSpace(line)
    requires forall j :: 0 <= j < |line| ==> line[j] !in combining
    ensures var r := LineRecords(line, width, height, combining);
      |r| == |line| + 1 && r[|line|] == LineEnd(width, height) &&
      forall j :: 0 <= j < |line| ==> r[j] == Glyph([line[j]], width, height)
  {
    StripSpec(line);
    PlainOwedTo(line, |line|, combining);
    GlyphsIndex(Symbols(line, combining), width, height);
  }

  /** Each symbol is a lone non-combining character or a character with the combining character after
      it. */
  lemma {:induction false} OwedToShapes(line: string, k: nat, combining: set<char>)
    requires k <= |line|
    ensures forall s :: s in OwedTo(line, k, combining) ==>
      (|s| == 1 && s[0] !in combining) || (|s| == 2 && s[1] in combining)
  {
    if k > 0 {
      OwedToShapes(line, k - 1, combining);
    }
  }

  /** So a combining character is never boxed alone, whatever its position, the first included. */
  lemma {:induction false} CombiningNeverAlone(line: string, c: char, combining: set<char>)
    requires c in combining
    ensures [c] !in Symbols(line, combining)
  {
    OwedToShapes(line, |line|, combining);
  }

  /** Symbols come out in character order: what is owed after position `j`, followed by what position `j`
      owes, is a prefix of what is owed after any later position. */
  lemma {:induction false} OwedInOrder(line: string, j: nat, k: nat, combining: set<char>)
    requires j < k <= |line|
    ensures OwedTo(line, j, combining) + Owed(line, j, combining) <= OwedTo(line, k, combining)
  {
    assert OwedTo(line, j + 1, combining) == OwedTo(line, j, combining) + Owed(line, j, combining);
    OwedToPrefix(line, j + 1, k, combining);
  }

  lemma {:induction false} OwedToPrefix(line: string, j: nat, k: nat, combining: set<char>)
    requires j <= k <= |line|
    ensures OwedTo(line, j, combining) <= OwedTo(line, k, combining)
    decreases k - j
  {
    if j < k {
      OwedToPrefix(line, j, k - 1, combining);
    }
  }

  /** When no combining character starts the line and no two follow each other, the symbols spell the
      line: the glyphs together hold every character once, in order. */
  lemma {:induction false} OwedToSpells(line: string, k: nat, combining: set<char>)
    requires 1 <= k <= |line|
    requires line[0] !in combining
    requires forall j :: 1 <= j < |line| ==> !(line[j - 1] in combining && line[j] in combining)
    ensures Join(OwedTo(line, k, combining), "") ==
      if k < |line| && line[k] in combining then line[..k - 1] else line[..k]
  {
    var ws := OwedTo(line, k, combining);
    assert ws == OwedTo(line, k - 1, combining) + Owed(line, k - 1, combining);
    JoinEmptyAppend(OwedTo(line, k - 1, combining), Owed(line, k - 1, combining));
    if k > 1 {
      OwedToSpells(line, k - 1, combining);
      if line[k - 1] in combining {
        assert line[..k - 2] + [line[k - 2], line[k - 1]] == line[..k];
      } else if !(k < |line| && line[k] in combining) {
        assert line[..k - 1] + [line[k - 1]] == line[..k];
      }
    } else {
      assert OwedTo(line, 0, combining) == [];
    }
  }

  lemma {:induction false} SymbolsSpellLine(line: string, combining: set<char>)
    requires line != [] && line[0] !in combining
    requires forall j :: 1 <= j < |line| ==> !(line[j - 1] in combining && line[j] in combining)
    ensures Join(Symbols(line, combining), "") == line
  {
    OwedToSpells(line, |line|, combining);
    assert line[..|line|] == line;
  }

  // ---------------------------------------------------------------- the whole file

  /** Whitespace around the whole ground-truth text makes no difference to the boxes. */
  lemma {:induction false} StripFileNoDifference(text: string, width: nat, height: nat, combining: set<char>)
    ensures BoxFile(Strip(text), width, height, combining) == BoxFile(text, width, height, combining)
  {
    StripSpec(text);
    StripUnchanged(Strip(text));
  }
}
