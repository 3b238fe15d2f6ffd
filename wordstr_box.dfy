/** `generate_wordstr_box.py`: one WordStr record per non-blank ground-truth line, carrying the line
    as its comment, followed by the end-of-line tab record. */
module WordStrBox {
  import opened Common
  import opened Text
  import opened Boxes
  import opened Seqs

  /** The record that covers the whole line image and carries the line after `#`. */
  function WordStr(line: string, width: int, height: int): Record
  {
    Record("WordStr", 0, 0, width, height, Some(line))
  }

  /** The two records of a non-blank line; a blank line gives none. */
  function LineRecords(line: string, width: int, height: int): seq<Record>
  {
    if Strip(line) == [] then [] else [WordStr(line, width, height), LineEnd(width, height)]
  }

  /** The records of the first `k` lines, line after line. */
  function RecordsTo(lines: seq<string>, k: nat, width: int, height: int): seq<Record>
    requires k <= |lines|
  {
    if k == 0 then [] else RecordsTo(lines, k - 1, width, height) + LineRecords(lines[k - 1], width, height)
  }

  /** Everything the script prints for a ground-truth text: the lines of the text stripped as a
      whole and split on newlines. */
  function WordStrFile(text: string, width: int, height: int): seq<Record>
  {
    var lines := SplitOn(Strip(text), '\n');
    RecordsTo(lines, |lines|, width, height)
  }

  /** The test of the loop: a line is written when something is left of it once stripped. */
  predicate NonBlank(line: string)
  {
    Strip(line) != []
  }

  /** The first `k` lines without the blank ones, in order. */
  function NonBlankTo(lines: seq<string>, k: nat): seq<string>
    requires k <= |lines|
  {
    FilterTo(lines, k, NonBlank)
  }

  /** One more line is kept exactly when it is not blank; all kept lines are the filter of the lines read. */
  lemma {:induction false} NonBlankToStep(lines: seq<string>, k: nat)
    requires 0 < k <= |lines|
    ensures NonBlankTo(lines, k) == NonBlankTo(lines, k - 1) + if NonBlank(lines[k - 1]) then [lines[k - 1]] else []
    ensures NonBlankTo(lines, k) == Filter(lines[..k], NonBlank)
  {
    FilterToFilter(lines, k, NonBlank);
  }

  lemma {:induction false} NonBlankToNonBlank(lines: seq<string>, k: nat)
    requires k <= |lines|
    ensures forall i :: 0 <= i < |NonBlankTo(lines, k)| ==> Strip(NonBlankTo(lines, k)[i]) != []
  {
    if k > 0 {
      NonBlankToNonBlank(lines, k - 1);
      assert NonBlankTo(lines, k) == NonBlankTo(lines, k - 1) + if NonBlank(lines[k - 1]) then [lines[k - 1]] else [];
    }
  }

  /** Two records per line of `nb`, in order: its WordStr record, then the tab record. */
  predicate Paired(rs: seq<Record>, nb: seq<string>, width: int, height: int)
  {
    |rs| == 2 * |nb| &&
    forall i :: 0 <= i < |nb| ==> rs[2 * i] == WordStr(nb[i], width, height) && rs[2 * i + 1] == LineEnd(width, height)
  }

  lemma {:induction false} PairedSnoc(rs: seq<Record>, nb: seq<string>, line: string, width: int, height: int)
    requires Paired(rs, nb, width, height)
    ensures Paired(rs + [WordStr(line, width, height), LineEnd(width, height)], nb + [line], width, height)
  {
    var rs' := rs + [WordStr(line, width, height), LineEnd(width, height)];
    var nb' := nb + [line];
    forall i | 0 <= i < |nb'| ensures rs'[2 * i] == WordStr(nb'[i], width, height) && rs'[2 * i + 1] == LineEnd(width, height) {
      if i < |nb| {
        assert rs'[2 * i] == rs[2 * i] && rs'[2 * i + 1] == rs[2 * i + 1];
      }
    }
  }

  /** Two records per non-blank line, in the order of the lines: the WordStr record with the line,
      then the tab record. Blank lines leave no trace. */
  lemma {:induction false} RecordsShape(lines: seq<string>, k: nat, width: int, height: int)
    requires k <= |lines|
    ensures Paired(RecordsTo(lines, k, width, height), NonBlankTo(lines, k), width, height)
  {
    if k > 0 {
      RecordsShape(lines, k - 1, width, height);
      var prev := RecordsTo(lines, k - 1, width, height);
      if Strip(lines[k - 1]) != [] {
        PairedSnoc(prev, NonBlankTo(lines, k - 1), lines[k - 1], width, height);
      } else {
        assert RecordsTo(lines, k, width, height) == prev + [];
      }
    }
  }

  /** The whole file: two records per non-blank line of the stripped text, and nothing else. */
  lemma {:induction false} FileShape(text: string, width: int, height: int)
    ensures var lines := SplitOn(Strip(text), '\n');
      var rs := WordStrFile(text, width, height);
      var nb := NonBlankTo(lines, |lines|);
      |rs| == 2 * |nb| && (forall i :: 0 <= i < |nb| ==> Strip(nb[i]) != []) &&
      forall i :: 0 <= i < |nb| ==> rs[2 * i] == WordStr(nb[i], width, height) && rs[2 * i + 1] == LineEnd(width, height)
  {
    var lines := SplitOn(Strip(text), '\n');
    RecordsShape(lines, |lines|, width, height);
    NonBlankToNonBlank(lines, |lines|);
  }

  /** The printed WordStr record holds the line verbatim after its first `#`: neither the symbol nor
      the coordinates hold a `#`, and the line is not stripped. */
  lemma {:induction false} CommentVerbatim(line: string, width: int, height: int)
    ensures var s := Render(WordStr(line, width, height));
      IndexOf(s, '#') < |s| && s[IndexOf(s, '#') + 1..] == line
  {
    var r := WordStr(line, width, height);
    var co := Coordinates(r);
    CoordinatesShape(r);
    var a := "WordStr" + co + " ";
    assert '#' !in a by {
      forall i | 0 <= i < |a| ensures a[i] != '#' {
        if 7 <= i < 7 + |co| {
          assert a[i] == co[i - 7];
          assert CoordinateChar(co[i - 7]);
        }
      }
    }
    var s := Render(r);
    assert s == a + ['#'] + line;
    IndexOfPrefix(a, '#', line);
    assert s[|a| + 1..] == line;
  }

  /** Stripping the text first changes nothing: the script strips it as a whole before splitting. */
  lemma {:induction false} StripFirst(text: string, width: int, height: int)
    ensures WordStrFile(Strip(text), width, height) == WordStrFile(text, width, height)
  {
    StripSpec(text);
    StripUnchanged(Strip(text));
  }
}
