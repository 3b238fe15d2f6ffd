/** The Python `str` operations the modelled code relies on, on `seq<char>`
    (a Dafny `char` is a Unicode scalar value, so `|s|` is Python's `len(s)`). */
module Text {
  import opened Common

  /** `str.isspace()` for one character: the characters Python's `strip()` and `split()` treat as whitespace. */
  predicate IsSpace(c: char)
  {
    c == ' ' || ('\t' <= c <= '\r') || ('\U{1C}' <= c <= '\U{1F}') || c == '\U{85}' || c == '\U{A0}'
    || c == '\U{1680}' || ('\U{2000}' <= c <= '\U{200A}') || c == '\U{2028}' || c == '\U{2029}'
    || c == '\U{202F}' || c == '\U{205F}' || c == '\U{3000}'
  }

  predicate AllSpace(s: string)
  {
    forall i :: 0 <= i < |s| ==> IsSpace(s[i])
  }

  /** The first position at or after `i` that holds no whitespace, or `|s|`. */
  function SkipSpace(s: string, i: nat): (j: nat)
    requires i <= |s|
    ensures i <= j <= |s|
    ensures j < |s| ==> !IsSpace(s[j])
    decreases |s| - i
  {
    if i < |s| && IsSpace(s[i]) then SkipSpace(s, i + 1) else i
  }

  /** Everything `SkipSpace` skips is whitespace. */
  lemma {:induction false} SkipSpaceRun(s: string, i: nat)
    requires i <= |s|
    ensures forall k :: i <= k < SkipSpace(s, i) ==> IsSpace(s[k])
    decreases |s| - i
  {
    if i < |s| && IsSpace(s[i]) {
      SkipSpaceRun(s, i + 1);
    }
  }

  /** The start of the run of whitespace that ends at position `j`. */
  function SpaceStart(s: string, j: nat): (k: nat)
    requires j <= |s|
    ensures k <= j
    ensures k > 0 ==> !IsSpace(s[k - 1])
  {
    if j > 0 && IsSpace(s[j - 1]) then SpaceStart(s, j - 1) else j
  }

  /** Everything from `SpaceStart` up to `j` is whitespace. */
  lemma {:induction false} SpaceStartRun(s: string, j: nat)
    requires j <= |s|
    ensures forall i :: SpaceStart(s, j) <= i < j ==> IsSpace(s[i])
  {
    if j > 0 && IsSpace(s[j - 1]) {
      SpaceStartRun(s, j - 1);
    }
  }

  /** A run of whitespace that ends at `j` cannot reach back past a non-whitespace character. */
  lemma {:induction false} SpaceStartAbove(s: string, j: nat, a: nat)
    requires a < j <= |s| && !IsSpace(s[a])
    ensures a < SpaceStart(s, j)
  {
    if IsSpace(s[j - 1]) {
      SpaceStartAbove(s, j - 1, a);
    }
  }

  /** `s.lstrip()` */
  function LStrip(s: string): (r: string)
    ensures |r| <= |s| && r == s[|s| - |r|..]
    ensures AllSpace(s[..|s| - |r|])
    ensures r != [] ==> !IsSpace(r[0])
  {
    var j := SkipSpace(s, 0);
    SkipSpaceRun(s, 0);
    assert forall i :: 0 <= i < j ==> s[..j][i] == s[i];
    s[j..]
  }

  /** `s.rstrip()` */
  function RStrip(s: string): (r: string)
    ensures |r| <= |s| && r == s[..|r|]
    ensures AllSpace(s[|r|..])
    ensures r != [] ==> !IsSpace(r[|r| - 1])
  {
    var k := SpaceStart(s, |s|);
    SpaceStartRun(s, |s|);
    assert forall i :: 0 <= i < |s| - k ==> s[k..][i] == s[k + i];
    s[..k]
  }

  /** How many leading whitespace characters `lstrip()` removes. */
  function LeadLen(s: string): nat
  {
    SkipSpace(s, 0)
  }

  lemma {:induction false} AllSpaceSplit(s: string, k: nat)
    requires k <= |s|
    ensures AllSpace(s) <==> AllSpace(s[..k]) && AllSpace(s[k..])
  {
    if AllSpace(s[..k]) && AllSpace(s[k..]) {
      forall i | 0 <= i < |s| ensures IsSpace(s[i]) {
        if i < k { assert s[i] == s[..k][i]; } else { assert s[i] == s[k..][i - k]; }
      }
    }
  }

  /** `s.strip()`: the text between the leading and the trailing run of whitespace. */
  function Strip(s: string): (r: string)
    ensures LeadLen(s) + |r| <= |s|
  {
    var a := SkipSpace(s, 0);
    if a == |s| then []
    else
      SpaceStartAbove(s, |s|, a);
      s[a..SpaceStart(s, |s|)]
  }

  /** The result of `strip()` is an infix of `s` that neither starts nor ends with whitespace, and it is
      empty exactly when `s` is blank. */
  lemma {:induction false} StripSpec(s: string)
    ensures LeadLen(s) + |Strip(s)| <= |s| && Strip(s) == s[LeadLen(s)..LeadLen(s) + |Strip(s)|]
    ensures Strip(s) != [] ==> !IsSpace(Strip(s)[0]) && !IsSpace(Strip(s)[|Strip(s)| - 1])
    ensures Strip(s) == [] <==> AllSpace(s)
  {
    StripInfix(s);
    StripEnds(s);
    StripBlank(s);
  }

  lemma {:induction false} StripInfix(s: string)
    ensures LeadLen(s) + |Strip(s)| <= |s| && Strip(s) == s[LeadLen(s)..LeadLen(s) + |Strip(s)|]
  {
    var a := SkipSpace(s, 0);
    if a < |s| {
      SpaceStartAbove(s, |s|, a);
    }
  }

  lemma {:induction false} StripEnds(s: string)
    ensures Strip(s) != [] ==> !IsSpace(Strip(s)[0]) && !IsSpace(Strip(s)[|Strip(s)| - 1])
  {
    var a := SkipSpace(s, 0);
    if a < |s| {
      SpaceStartAbove(s, |s|, a);
      var b := SpaceStart(s, |s|);
      var r := s[a..b];
      assert r[0] == s[a] && r[|r| - 1] == s[b - 1];
    }
  }

  lemma {:induction false} StripBlank(s: string)
    ensures Strip(s) == [] <==> AllSpace(s)
  {
    var a := SkipSpace(s, 0);
    SkipSpaceRun(s, 0);
    if a < |s| {
      SpaceStartAbove(s, |s|, a);
    }
  }

  /** `strip()` keeps only characters of the string. */
  lemma {:induction false} StripChars(s: string)
    ensures forall c :: c in Strip(s) ==> c in s
  {
    StripSpec(s);
    var a := LeadLen(s);
    var r := Strip(s);
    forall c | c in r ensures c in s {
      var m :| 0 <= m < |r| && r[m] == c;
      assert s[a + m] == c;
    }
  }

  /** Everything `strip()` cuts off is whitespace. */
  lemma {:induction false} StripCutsSpace(s: string)
    ensures AllSpace(s[..LeadLen(s)]) && AllSpace(s[LeadLen(s) + |Strip(s)|..])
  {
    StripLeadSpace(s);
    StripTrailSpace(s);
  }

  lemma {:induction false} StripLeadSpace(s: string)
    ensures AllSpace(s[..LeadLen(s)])
  {
    var a := SkipSpace(s, 0);
    SkipSpaceRun(s, 0);
    forall i | 0 <= i < a ensures IsSpace(s[..a][i]) {
      assert s[..a][i] == s[i];
    }
  }

  lemma {:induction false} StripTrailSpace(s: string)
    ensures AllSpace(s[LeadLen(s) + |Strip(s)|..])
  {
    var a := SkipSpace(s, 0);
    if a < |s| {
      SpaceStartAbove(s, |s|, a);
      var e := SpaceStart(s, |s|);
      assert |Strip(s)| == e - a;
      SpaceStartRun(s, |s|);
      forall i | 0 <= i < |s| - e ensures IsSpace(s[e..][i]) {
        assert s[e..][i] == s[e + i];
      }
    } else {
      assert s[a + |Strip(s)|..] == [];
    }
  }

  /** A string that neither starts nor ends with whitespace is its own `strip()`. */
  lemma {:induction false} StripUnchanged(s: string)
    requires s == [] || (!IsSpace(s[0]) && !IsSpace(s[|s| - 1]))
    ensures Strip(s) == s
  {
    if s != [] {
      assert SkipSpace(s, 0) == 0;
      assert SpaceStart(s, |s|) == |s|;
      assert s[0..|s|] == s;
    }
  }

  /** `sep.join(ws)` */
  function Join(ws: seq<string>, sep: string): string
  {
    if |ws| == 0 then "" else if |ws| == 1 then ws[0] else ws[0] + sep + Join(ws[1..], sep)
  }

  function SumLen(ws: seq<string>): nat
  {
    if ws == [] then 0 else |ws[0]| + SumLen(ws[1..])
  }

  /** Every word and every separator is in the joined string: its length is the words' lengths
      plus one separator between each two neighbours. */
  lemma {:induction false} JoinLength(ws: seq<string>, sep: string)
    ensures |Join(ws, sep)| == SumLen(ws) + (if ws == [] then 0 else (|ws| - 1) * |sep|)
  {
    if |ws| > 1 {
      JoinLength(ws[1..], sep);
    }
  }

  /** Appending one word to a non-empty list appends a separator and the word. */
  lemma {:induction false} JoinSnoc(ws: seq<string>, w: string, sep: string)
    requires ws != []
    ensures Join(ws + [w], sep) == Join(ws, sep) + sep + w
  {
    if |ws| == 1 {
      assert ws + [w] == [ws[0], w];
    } else {
      assert (ws + [w])[1..] == ws[1..] + [w];
      JoinSnoc(ws[1..], w, sep);
    }
  }

  /** `''.join`: appending a word appends it, also to an empty list. */
  lemma {:induction false} JoinEmptySnoc(ws: seq<string>, w: string)
    ensures Join(ws + [w], "") == Join(ws, "") + w
  {
    if ws == [] {
      assert ws + [w] == [w];
    } else {
      JoinSnoc(ws, w, "");
    }
  }

  /** `''.join` of a concatenation is the concatenation of the joins. */
  lemma {:induction false} JoinEmptyAppend(a: seq<string>, b: seq<string>)
    ensures Join(a + b, "") == Join(a, "") + Join(b, "")
    decreases |b|
  {
    if b == [] {
      assert a + b == a;
    } else {
      var c := b[..|b| - 1];
      assert b == c + [b[|b| - 1]];
      assert a + b == (a + c) + [b[|b| - 1]];
      JoinEmptyAppend(a, c);
      JoinEmptySnoc(a + c, b[|b| - 1]);
      JoinEmptySnoc(c, b[|b| - 1]);
    }
  }

  function Reverse<T>(s: seq<T>): (r: seq<T>)
    ensures |r| == |s|
    ensures forall i :: 0 <= i < |s| ==> r[i] == s[|s| - 1 - i]
  {
    if s == [] then [] else Reverse(s[1..]) + [s[0]]
  }

  lemma {:induction false} SumLenReverse(ws: seq<string>)
    ensures SumLen(Reverse(ws)) == SumLen(ws)
  {
    if ws != [] {
      SumLenAppend(Reverse(ws[1..]), [ws[0]]);
      SumLenReverse(ws[1..]);
    }
  }

  lemma {:induction false} SumLenAppend(a: seq<string>, b: seq<string>)
    ensures SumLen(a + b) == SumLen(a) + SumLen(b)
  {
    if a == [] {
      assert a + b == b;
    } else {
      assert (a + b)[1..] == a[1..] + b;
      SumLenAppend(a[1..], b);
    }
  }

  /** Ending every word with a newline adds one character per word. */
  lemma {:induction false} SumLenNewlines(cs: seq<string>, ws: seq<string>)
    requires |cs| == |ws|
    requires forall i :: 0 <= i < |ws| ==> cs[i] == ws[i] + "\n"
    ensures SumLen(cs) == SumLen(ws) + |ws|
  {
    if ws != [] {
      assert cs[0] == ws[0] + "\n";
      SumLenNewlines(cs[1..], ws[1..]);
    }
  }

  /** Position of the first `d` in `s`, or `|s|` when there is none. */
  function IndexOf(s: string, d: char): (k: nat)
    ensures k <= |s|
    ensures k < |s| ==> s[k] == d
    ensures d !in s[..k]
    ensures k == |s| <==> d !in s
  {
    if s == [] then 0 else if s[0] == d then 0 else 1 + IndexOf(s[1..], d)
  }

  /** `s.split(d)` for a one-character separator. */
  function SplitOn(s: string, d: char): (r: seq<string>)
    ensures |r| >= 1
    decreases |s|
  {
    var k := IndexOf(s, d);
    if k == |s| then [s] else [s[..k]] + SplitOn(s[k + 1..], d)
  }

  /** Joining the pieces of a split with the separator gives back the string. */
  lemma {:induction false} SplitOnJoin(s: string, d: char)
    ensures Join(SplitOn(s, d), [d]) == s
    decreases |s|
  {
    var k := IndexOf(s, d);
    if k < |s| {
      var rest := SplitOn(s[k + 1..], d);
      assert SplitOn(s, d) == [s[..k]] + rest;
      JoinCons(s[..k], rest, [d]);
      SplitOnJoin(s[k + 1..], d);
      assert s == s[..k] + [d] + s[k + 1..];
    }
  }

  lemma {:induction false} JoinCons(w: string, ws: seq<string>, sep: string)
    requires ws != []
    ensures Join([w] + ws, sep) == w + sep + Join(ws, sep)
  {
    assert ([w] + ws)[1..] == ws;
  }

  /** Splitting a join of separator-free pieces gives the pieces back. */
  lemma {:induction false} JoinSplitOn(ws: seq<string>, d: char)
    requires ws != []
    requires forall i :: 0 <= i < |ws| ==> d !in ws[i]
    ensures SplitOn(Join(ws, [d]), d) == ws
  {
    if |ws| == 1 {
      assert IndexOf(ws[0], d) == |ws[0]|;
    } else {
      var rest := Join(ws[1..], [d]);
      assert Join(ws, [d]) == ws[0] + [d] + rest;
      SplitOnPrefix(ws[0], d, rest);
      JoinSplitOn(ws[1..], d);
      assert [ws[0]] + ws[1..] == ws by {
        assert ws == [ws[0]] + ws[1..];
      }
    }
  }

  /** A separator-free head and a separator split off first. */
  lemma {:induction false} SplitOnPrefix(a: string, d: char, b: string)
    requires d !in a
    ensures SplitOn(a + [d] + b, d) == [a] + SplitOn(b, d)
  {
    var s := a + [d] + b;
    IndexOfPrefix(a, d, b);
    assert s[..|a|] == a;
    assert s[|a| + 1..] == b;
  }

  lemma {:induction false} IndexOfPrefix(a: string, d: char, b: string)
    requires d !in a
    ensures IndexOf(a + [d] + b, d) == |a|
  {
    if a != [] {
      assert (a + [d] + b)[1..] == a[1..] + [d] + b;
      IndexOfPrefix(a[1..], d, b);
    }
  }

  /** `s.split(d, 1)[0]`: the text before the first `d`, or all of `s`. */
  function BeforeFirst(s: string, d: char): (r: string)
    ensures d !in r
    ensures r == s || (|r| < |s| && s[|r|] == d)
    ensures r == s[..|r|]
  {
    s[..IndexOf(s, d)]
  }

  /** The first position at or after `i` that holds whitespace, or `|s|`. */
  function SkipWord(s: string, i: nat): (j: nat)
    requires i <= |s|
    ensures i <= j <= |s|
    ensures j < |s| ==> IsSpace(s[j])
    decreases |s| - i
  {
    if i < |s| && !IsSpace(s[i]) then SkipWord(s, i + 1) else i
  }

  /** Nothing `SkipWord` skips is whitespace. */
  lemma {:induction false} SkipWordRun(s: string, i: nat)
    requires i <= |s|
    ensures forall k :: i <= k < SkipWord(s, i) ==> !IsSpace(s[k])
    decreases |s| - i
  {
    if i < |s| && !IsSpace(s[i]) {
      SkipWordRun(s, i + 1);
    }
  }

  /** The whitespace-separated tokens of `s` from position `i` on. */
  function SplitWsFrom(s: string, i: nat): (r: seq<string>)
    requires i <= |s|
    decreases |s| - i
  {
    var j := SkipSpace(s, i);
    if j == |s| then []
    else
      [s[j..SkipWord(s, j)]] + SplitWsFrom(s, SkipWord(s, j))
  }

  /** Every token from position `i` on is non-empty and holds no whitespace. */
  lemma {:induction false} SplitWsFromTokens(s: string, i: nat)
    requires i <= |s|
    ensures forall n :: 0 <= n < |SplitWsFrom(s, i)| ==>
      SplitWsFrom(s, i)[n] != [] && (forall m :: 0 <= m < |SplitWsFrom(s, i)[n]| ==> !IsSpace(SplitWsFrom(s, i)[n][m]))
    decreases |s| - i
  {
    var j := SkipSpace(s, i);
    if j < |s| {
      var k := SkipWord(s, j);
      SkipWordRun(s, j);
      assert !IsSpace(s[j]);
      assert k == SkipWord(s, j + 1);
      var w, rest := s[j..k], SplitWsFrom(s, k);
      assert forall m :: 0 <= m < k - j ==> w[m] == s[j + m];
      SplitWsFromTokens(s, k);
      var r := SplitWsFrom(s, i);
      assert r == [w] + rest;
      forall n | 0 <= n < |r| ensures r[n] != [] && (forall m :: 0 <= m < |r[n]| ==> !IsSpace(r[n][m])) {
        if n > 0 {
          assert r[n] == rest[n - 1];
        } else {
          assert r[0] == w;
        }
      }
    }
  }

  /** `s.split()` with no argument: the maximal runs of non-whitespace characters. */
  function SplitWs(s: string): seq<string>
  {
    SplitWsFrom(s, 0)
  }

  /** The tokens of `s.split()` are non-empty and hold no whitespace. */
  lemma {:induction false} SplitWsTokens(s: string)
    ensures forall i :: 0 <= i < |SplitWs(s)| ==>
      SplitWs(s)[i] != [] && (forall j :: 0 <= j < |SplitWs(s)[i]| ==> !IsSpace(SplitWs(s)[i][j]))
  {
    SplitWsFromTokens(s, 0);
  }

  /** `s.split()` is empty exactly when `s` is blank. */
  lemma {:induction false} SplitWsEmpty(s: string)
    ensures SplitWs(s) == [] <==> AllSpace(s)
  {
    var j := SkipSpace(s, 0);
    SkipSpaceRun(s, 0);
    if j < |s| {
      assert !IsSpace(s[j]);
    }
  }

  predicate IsPrefix(p: string, s: string)
  {
    |p| <= |s| && s[..|p|] == p
  }

  predicate IsSuffix(p: string, s: string)
  {
    |p| <= |s| && s[|s| - |p|..] == p
  }

  /** `sub in s` for strings */
  predicate Contains(s: string, sub: string)
  {
    IsPrefix(sub, s) || (s != [] && Contains(s[1..], sub))
  }

  /** `s.replace(pat, rep)`: non-overlapping occurrences, left to right. */
  function Replace(s: string, pat: string, rep: string): string
    requires pat != []
    decreases |s|
  {
    if |s| < |pat| then s
    else if s[..|pat|] == pat then rep + Replace(s[|pat|..], pat, rep)
    else [s[0]] + Replace(s[1..], pat, rep)
  }

  /** Removing every occurrence of one character: `s.replace(c, '')`. */
  function RemoveChar(s: string, c: char): (r: string)
    ensures c !in r
    ensures forall x :: x != c ==> (x in r <==> x in s)
    ensures c !in s ==> r == s
    ensures |r| <= |s|
  {
    if s == [] then [] else if s[0] == c then RemoveChar(s[1..], c) else [s[0]] + RemoveChar(s[1..], c)
  }

  /** `RemoveChar` is what `replace` with a one-character pattern and an empty replacement does. */
  lemma {:induction false} RemoveCharIsReplace(s: string, c: char)
    ensures Replace(s, [c], "") == RemoveChar(s, c)
  {
    if s != [] {
      RemoveCharIsReplace(s[1..], c);
      if s[0] == c {
        assert s[..1] == [c];
      } else {
        assert s[..1] != [c];
      }
    }
  }

  /** Every `a` replaced by `b`, every other character kept. */
  function Subst(s: string, a: char, b: char): (r: string)
    ensures |r| == |s|
  {
    if s == [] then [] else [if s[0] == a then b else s[0]] + Subst(s[1..], a, b)
  }

  /** `s.replace(a, b)` for one-character strings is `Subst`. */
  lemma {:induction false} ReplaceOneChar(s: string, a: char, b: char)
    ensures Replace(s, [a], [b]) == Subst(s, a, b)
  {
    if s != [] {
      ReplaceOneChar(s[1..], a, b);
      assert s[..1] == [s[0]];
    }
  }

  lemma {:induction false} SubstAppend(x: string, y: string, a: char, b: char)
    ensures Subst(x + y, a, b) == Subst(x, a, b) + Subst(y, a, b)
  {
    if x == [] {
      assert x + y == y;
    } else {
      assert (x + y)[1..] == x[1..] + y;
      SubstAppend(x[1..], y, a, b);
    }
  }

  lemma {:induction false} SubstAbsent(s: string, a: char, b: char)
    requires a !in s
    ensures Subst(s, a, b) == s
  {
    if s != [] {
      SubstAbsent(s[1..], a, b);
    }
  }

  /** Substituting back undoes a substitution by a character the string did not hold. */
  lemma {:induction false} SubstBack(s: string, a: char, b: char)
    requires b !in s
    ensures Subst(Subst(s, a, b), b, a) == s
  {
    if s != [] {
      SubstBack(s[1..], a, b);
      assert Subst(s, a, b)[1..] == Subst(s[1..], a, b);
    }
  }

  /** No two spaces in a row. */
  predicate NoDoubleSpace(s: string)
  {
    forall i :: 0 <= i < |s| - 1 ==> s[i] != ' ' || s[i + 1] != ' '
  }

  /** `s.replace("  ", rep)` leaves a string without two spaces in a row as it was. */
  lemma {:induction false} ReplaceNoDoubleSpace(s: string, rep: string)
    requires NoDoubleSpace(s)
    ensures Replace(s, "  ", rep) == s
  {
    if |s| >= 2 {
      assert s[..2] != "  " by {
        assert s[0] != ' ' || s[1] != ' ';
      }
      NoDoubleSpaceTail(s);
      ReplaceNoDoubleSpace(s[1..], rep);
      assert s == [s[0]] + s[1..];
    }
  }

  /** A string without two spaces in a row keeps that shape when one character is cut off its front
      or a newline is added at its end. */
  lemma {:induction false} NoDoubleSpaceTail(s: string)
    requires s != [] && NoDoubleSpace(s)
    ensures NoDoubleSpace(s[1..])
  {
    forall i | 0 <= i < |s[1..]| - 1 ensures s[1..][i] != ' ' || s[1..][i + 1] != ' ' {
      assert s[1..][i] == s[i + 1] && s[1..][i + 1] == s[i + 2];
    }
  }

  lemma {:induction false} NoDoubleSpaceNewline(s: string)
    requires NoDoubleSpace(s)
    ensures NoDoubleSpace(s + "\n")
  {
    var t := s + "\n";
    forall i | 0 <= i < |t| - 1 ensures t[i] != ' ' || t[i + 1] != ' ' {
      if i + 1 < |s| {
        assert t[i] == s[i] && t[i + 1] == s[i + 1];
      } else {
        assert t[i + 1] == '\n';
      }
    }
  }

  predicate IsDigit(c: char)
  {
    '0' <= c <= '9'
  }

  /** `s.isnumeric()` restricted to ASCII digits */
  predicate IsNumeric(s: string)
  {
    |s| > 0 && forall i :: 0 <= i < |s| ==> IsDigit(s[i])
  }

  /** The value of a string of decimal digits. */
  function DigitsValue(s: string): nat
    requires forall i :: 0 <= i < |s| ==> IsDigit(s[i])
  {
    if s == [] then 0 else
      var c := s[|s| - 1];
      assert IsDigit(c);
      DigitsValue(s[..|s| - 1]) * 10 + (c as int - '0' as int)
  }

  /** An integer literal with an optional sign and no surrounding whitespace. */
  function SignedDigits(t: string): (r: Option<int>)
    ensures IsNumeric(t) ==> r == Some(DigitsValue(t))
    ensures r.Some? ==> IsNumeric(t) || (|t| >= 2 && t[0] in "+-" && IsNumeric(t[1..]))
  {
    if IsNumeric(t) then Some(DigitsValue(t))
    else if |t| >= 2 && t[0] == '+' && IsNumeric(t[1..]) then Some(DigitsValue(t[1..]))
    else if |t| >= 2 && t[0] == '-' && IsNumeric(t[1..]) then Some(0 - DigitsValue(t[1..]) as int)
    else None
  }

  /** `int(s)`: optional sign and decimal digits, surrounding whitespace ignored. */
  function ParseInt(s: string): (r: Option<int>)
    ensures IsNumeric(s) ==> r == Some(DigitsValue(s))
  {
    if IsNumeric(s) then
      StripUnchanged(s);
      SignedDigits(s)
    else SignedDigits(Strip(s))
  }

  /** `int(s)` raising ValueError for a string that is not an integer literal. */
  function Int(s: string): (r: Result<int>)
    ensures r.Err? ==> r.error == NotAnInteger(s)
    ensures IsNumeric(s) ==> r == Ok(DigitsValue(s))
  {
    match ParseInt(s)
    case Some(n) => Ok(n)
    case None => Err(NotAnInteger(s))
  }

  function DigitChar(d: nat): (c: char)
    requires d < 10
    ensures IsDigit(c) && c as int - '0' as int == d
  {
    ('0' as int + d) as char
  }

  /** `str(n)` for a natural number: its decimal digits, with no leading zero. */
  function NatToString(n: nat): (r: string)
    ensures IsNumeric(r) && DigitsValue(r) == n
    ensures |r| > 1 ==> r[0] != '0'
  {
    if n < 10 then [DigitChar(n)] else
      var p := NatToString(n / 10);
      var r := p + [DigitChar(n % 10)];
      assert r[..|r| - 1] == p;
      r
  }

  /** `str(n)` for an integer. */
  function IntToString(n: int): string
  {
    if n >= 0 then NatToString(n) else "-" + NatToString(-n)
  }
}
