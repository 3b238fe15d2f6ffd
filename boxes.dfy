/** The Tesseract box records the box tools print, one per line: a symbol, the left, bottom, right and
    top coordinates, and a page number that is always 0. The WordStr records carry the line's text as a
    trailing `#` comment. */
module Boxes {
  import opened Common
  import opened Text

  datatype Record = Record(symbol: string, left: int, bottom: int, right: int, top: int, comment: Option<string>)

  /** `"%s %d %d %d %d 0" % (...)`, followed by `" #%s"` when the record has a comment. */
  function Render(r: Record): string
  {
    r.symbol + Coordinates(r) + (if r.comment.Some? then " #" + r.comment.value else "")
  }

  /** Everything between the symbol and the comment: the four numbers and the page, each after a space. */
  function Coordinates(r: Record): string
  {
    SpacedJoin([IntToString(r.left), IntToString(r.bottom), IntToString(r.right), IntToString(r.top), "0"])
  }

  /** What one `print` call per record writes: each rendered record followed by a newline. */
  function Printed(rs: seq<Record>): string
  {
    if rs == [] then "" else Render(rs[0]) + "\n" + Printed(rs[1..])
  }

  /** A symbol's box covering the whole line image `(0, 0, width, height)`. */
  function Glyph(symbol: string, width: int, height: int): Record
  {
    Record(symbol, 0, 0, width, height, None)
  }

  /** The end-of-line box: a tab just outside the image, `(width, height, width + 1, height + 1)`. */
  function LineEnd(width: int, height: int): Record
  {
    Record("\t", width, height, width + 1, height + 1, None)
  }

  /** The glyph boxes of several symbols, in order. */
  function Glyphs(symbols: seq<string>, width: int, height: int): (r: seq<Record>)
    ensures |r| == |symbols|
  {
    if symbols == [] then [] else [Glyph(symbols[0], width, height)] + Glyphs(symbols[1..], width, height)
  }

  lemma {:induction false} GlyphsIndex(symbols: seq<string>, width: int, height: int)
    ensures forall i :: 0 <= i < |symbols| ==> Glyphs(symbols, width, height)[i] == Glyph(symbols[i], width, height)
  {
    if symbols != [] {
      GlyphsIndex(symbols[1..], width, height);
    }
  }

  lemma {:induction false} GlyphsSnoc(a: seq<string>, s: string, width: int, height: int)
    ensures Glyphs(a + [s], width, height) == Glyphs(a, width, height) + [Glyph(s, width, height)]
  {
    var l, r := Glyphs(a + [s], width, height), Glyphs(a, width, height) + [Glyph(s, width, height)];
    GlyphsIndex(a + [s], width, height);
    GlyphsIndex(a, width, height);
    assert |l| == |r|;
    forall i | 0 <= i < |l| ensures l[i] == r[i] {
      if i < |a| {
        assert (a + [s])[i] == a[i];
      }
    }
  }

  /** Printing two runs of records one after the other writes the two outputs one after the other. */
  lemma {:induction false} PrintedAppend(a: seq<Record>, b: seq<Record>)
    ensures Printed(a + b) == Printed(a) + Printed(b)
  {
    if a == [] {
      assert a + b == b;
    } else {
      assert (a + b)[1..] == a[1..] + b;
      PrintedAppend(a[1..], b);
    }
  }

  /** A glyph box never equals the end-of-line box: their right edges differ. */
  lemma {:induction false} GlyphIsNotLineEnd(symbol: string, width: int, height: int)
    ensures Glyph(symbol, width, height) != LineEnd(width, height)
  {
  }

  // ---------------------------------------------------------------- the digits of a record

  /** `str(n)` holds digits and possibly a leading minus sign: no space, newline, tab or `#`. */
  lemma {:induction false} IntToStringPlain(n: int)
    ensures forall i :: 0 <= i < |IntToString(n)| ==> IntToString(n)[i] == '-' || IsDigit(IntToString(n)[i])
  {
    var r := IntToString(n);
    if n < 0 {
      var d := NatToString(-n);
      assert r == "-" + d;
      forall i | 0 <= i < |r| ensures r[i] == '-' || IsDigit(r[i]) {
        if i > 0 {
          assert r[i] == d[i - 1];
        }
      }
    }
  }

  /** The characters of the coordinate part: spaces, digits and minus signs. */
  predicate CoordinateChar(c: char)
  {
    c == ' ' || c == '-' || IsDigit(c)
  }

  /** The coordinate part starts with a space, never holds two spaces in a row, and holds nothing but
      spaces, digits and minus signs. */
  lemma {:induction false} CoordinatesShape(r: Record)
    ensures var s := Coordinates(r);
      |s| >= 2 && s[0] == ' ' && s[1] != ' ' &&
      (forall i :: 0 <= i < |s| ==> CoordinateChar(s[i])) &&
      (forall i :: 0 <= i < |s| - 1 ==> s[i] != ' ' || s[i + 1] != ' ')
  {
    var fs := [IntToString(r.left), IntToString(r.bottom), IntToString(r.right), IntToString(r.top), "0"];
    forall k | 0 <= k < |fs|
      ensures fs[k] != [] && forall i :: 0 <= i < |fs[k]| ==> CoordinateChar(fs[k][i]) && fs[k][i] != ' '
    {
      if k < 4 {
        var n := [r.left, r.bottom, r.right, r.top][k];
        assert fs[k] == IntToString(n);
        IntToStringPlain(n);
        NumberField(fs[k]);
      } else {
        assert IsDigit(fs[k][0]);
      }
    }
    SpacedFields(fs);
  }

  /** A rendered integer is not empty and holds no space. */
  lemma {:induction false} NumberField(t: string)
    requires t != []
    requires forall i :: 0 <= i < |t| ==> t[i] == '-' || IsDigit(t[i])
    ensures forall i :: 0 <= i < |t| ==> CoordinateChar(t[i]) && t[i] != ' '
  {
  }

  /** Fields each preceded by one space. */
  function SpacedJoin(fs: seq<string>): string
  {
    if fs == [] then "" else " " + fs[0] + SpacedJoin(fs[1..])
  }

  lemma {:induction false} SpacedFields(fs: seq<string>)
    requires forall k :: 0 <= k < |fs| ==> fs[k] != [] && forall i :: 0 <= i < |fs[k]| ==> CoordinateChar(fs[k][i]) && fs[k][i] != ' '
    ensures var s := SpacedJoin(fs);
      (fs != [] ==> |s| >= 2 && s[0] == ' ' && s[1] != ' ') &&
      (forall i :: 0 <= i < |s| ==> CoordinateChar(s[i])) &&
      (forall i :: 0 <= i < |s| - 1 ==> s[i] != ' ' || s[i + 1] != ' ')
  {
    if fs != [] {
      SpacedFields(fs[1..]);
      var t := SpacedJoin(fs[1..]);
      var s := SpacedJoin(fs);
      var h := " " + fs[0];
      assert s == h + t;
      forall i | 0 <= i < |s| ensures CoordinateChar(s[i]) {
        if i >= |h| {
          assert s[i] == t[i - |h|];
        } else if i > 0 {
          assert s[i] == fs[0][i - 1];
        }
      }
      forall i | 0 <= i < |s| - 1 ensures s[i] != ' ' || s[i + 1] != ' ' {
        if i >= |h| {
          assert s[i] == t[i - |h|] && s[i + 1] == t[i + 1 - |h|];
        } else if i > 0 {
          assert s[i] == fs[0][i - 1];
        } else {
          assert s[1] == fs[0][0];
        }
      }
    }
  }
}
