/** `generate_eval_train.py`: split the lines of a list file into `list.train` and `list.eval` next to
    it, the first `int(ratio * n)` lines for training and the rest for evaluation. */
module EvalTrain {
  import opened Common
  import opened Text
  import opened Paths

  // ---------------------------------------------------------------- str.splitlines

  /** The line boundaries of `str.splitlines`: `\n`, `\r`, `\v`, `\f`, the file, group and record
      separators, NEL and the Unicode line and paragraph separators. */
  predicate IsLineBreak(c: char)
  {
    var n := c as int;
    n == 0x0A || n == 0x0D || n == 0x0B || n == 0x0C || n == 0x1C || n == 0x1D || n == 0x1E ||
    n == 0x85 || n == 0x2028 || n == 0x2029
  }

  /** The first line boundary in `s`, or `|s|` when there is none. */
  function BreakIndex(s: string): (k: nat)
    ensures k <= |s|
    ensures forall i :: 0 <= i < k ==> !IsLineBreak(s[i])
    ensures k < |s| ==> IsLineBreak(s[k])
  {
    if s == [] then 0 else if IsLineBreak(s[0]) then 0 else 1 + BreakIndex(s[1..])
  }

  /** `s.splitlines()`: the lines without their boundaries, where `\r\n` is one boundary and a
      boundary at the very end opens no further line. */
  function SplitLines(s: string): seq<string>
    decreases |s|
  {
    if s == [] then []
    else
      var k := BreakIndex(s);
      if k == |s| then [s]
      else
        var next := if s[k] == '\r' && k + 1 < |s| && s[k + 1] == '\n' then k + 2 else k + 1;
        [s[..k]] + SplitLines(s[next..])
  }

  /** No line holds a boundary. */
  predicate Unbroken(lines: seq<string>)
  {
    forall i, j :: 0 <= i < |lines| && 0 <= j < |lines[i]| ==> !IsLineBreak(lines[i][j])
  }

  /** The only boundaries of `s` are newlines. */
  predicate NewlinesOnly(s: string)
  {
    forall i :: 0 <= i < |s| ==> s[i] == '\n' || !IsLineBreak(s[i])
  }

  lemma {:induction false} SplitLinesUnbroken(s: string)
    ensures Unbroken(SplitLines(s))
    decreases |s|
  {
    if s != [] {
      var k := BreakIndex(s);
      if k < |s| {
        var next := if s[k] == '\r' && k + 1 < |s| && s[k + 1] == '\n' then k + 2 else k + 1;
        SplitLinesUnbroken(s[next..]);
        var rest := SplitLines(s[next..]);
        var ls := SplitLines(s);
        assert ls == [s[..k]] + rest;
        forall i, j | 0 <= i < |ls| && 0 <= j < |ls[i]| ensures !IsLineBreak(ls[i][j]) {
          if i > 0 {
            assert ls[i] == rest[i - 1];
          }
        }
      }
    }
  }

  /** The text without one newline at its very end. */
  function DropFinalNewline(s: string): string
  {
    if s != [] && s[|s| - 1] == '\n' then s[..|s| - 1] else s
  }

  /** Where newlines are the only boundaries, the first boundary is the first newline. */
  lemma {:induction false} BreakIsNewline(s: string)
    requires NewlinesOnly(s)
    ensures BreakIndex(s) == IndexOf(s, '\n')
  {
    if s != [] && !IsLineBreak(s[0]) {
      var t := s[1..];
      assert forall i :: 0 <= i < |t| ==> t[i] == s[i + 1];
      BreakIsNewline(t);
    }
  }

  lemma {:induction false} DropFinalNewlineCons(a: string, rest: string)
    requires rest != []
    ensures DropFinalNewline(a + "\n" + rest) == a + "\n" + DropFinalNewline(rest)
  {
    var s := a + "\n" + rest;
    assert s[|s| - 1] == rest[|rest| - 1];
    assert s[..|s| - 1] == a + "\n" + rest[..|rest| - 1];
  }

  /** A newline ends the first line. */
  lemma {:induction false} SplitLinesAt(s: string, k: nat)
    requires k == BreakIndex(s) && k < |s| && s[k] == '\n'
    ensures SplitLines(s) == [s[..k]] + SplitLines(s[k + 1..])
  {
    assert s[k] != '\r';
  }

  lemma {:induction false} CutAt(s: string, k: nat)
    requires k < |s| && s[k] == '\n'
    ensures s == s[..k] + "\n" + s[k + 1..]
  {
  }

  lemma {:induction false} NewlinesOnlyDrop(s: string, j: nat)
    requires NewlinesOnly(s) && j <= |s|
    ensures NewlinesOnly(s[j..])
  {
    var t := s[j..];
    forall i | 0 <= i < |t| ensures t[i] == '\n' || !IsLineBreak(t[i]) {
      assert t[i] == s[j + i];
    }
  }

  /** Where newlines are the only boundaries, `splitlines` is `split('\n')` after the final newline
      is dropped, and the empty text has no lines at all. */
  lemma {:induction false} SplitLinesOnNewlines(s: string)
    requires NewlinesOnly(s)
    ensures SplitLines(s) == if s == [] then [] else SplitOn(DropFinalNewline(s), '\n')
    decreases |s|
  {
    if s != [] {
      var k := IndexOf(s, '\n');
      if k == |s| {
        BreakIsNewline(s);
      } else {
        BreakIsNewline(s);
        SplitLinesAt(s, k);
        NewlinesOnlyDrop(s, k + 1);
        var a, rest := s[..k], s[k + 1..];
        CutAt(s, k);
        if rest == [] {
          assert DropFinalNewline(s) == a;
          assert SplitOn(a, '\n') == [a] by {
            assert IndexOf(a, '\n') == |a|;
          }
        } else {
          SplitLinesOnNewlines(rest);
          DropFinalNewlineCons(a, rest);
          SplitOnPrefix(a, '\n', DropFinalNewline(rest));
        }
      }
    }
  }

  /** Joining the lines with newlines gives the text back, up to a final newline. */
  lemma {:induction false} SplitLinesJoin(s: string)
    requires NewlinesOnly(s)
    ensures Join(SplitLines(s), "\n") == DropFinalNewline(s)
  {
    SplitLinesOnNewlines(s);
    if s != [] {
      SplitOnJoin(DropFinalNewline(s), '\n');
    }
  }

  /** Lines joined by newlines, the last one not empty, are split back into the same lines. */
  lemma {:induction false} JoinSplitLines(ls: seq<string>)
    requires Unbroken(ls)
    requires ls != [] ==> ls[|ls| - 1] != ""
    ensures SplitLines(Join(ls, "\n")) == ls
  {
    if ls != [] {
      var s := Join(ls, "\n");
      UnbrokenNoNewline(ls);
      JoinNewlinesOnly(ls);
      JoinKeepsEnd(ls);
      SplitLinesOnNewlines(s);
      assert Join(ls, ['\n']) == s;
      JoinSplitOn(ls, '\n');
    }
  }

  /** Lines without boundaries hold no newline. */
  lemma {:induction false} UnbrokenNoNewline(ls: seq<string>)
    requires Unbroken(ls)
    ensures forall i :: 0 <= i < |ls| ==> '\n' !in ls[i]
  {
    forall i | 0 <= i < |ls| ensures '\n' !in ls[i] {
      forall j | 0 <= j < |ls[i]| ensures ls[i][j] != '\n' {
        assert !IsLineBreak(ls[i][j]);
      }
    }
  }

  /** Lines without boundaries, the last one not empty, join into a text with no final newline. */
  lemma {:induction false} JoinKeepsEnd(ls: seq<string>)
    requires Unbroken(ls) && ls != [] && ls[|ls| - 1] != ""
    ensures var s := Join(ls, "\n"); s != [] && DropFinalNewline(s) == s
  {
    var s := Join(ls, "\n");
    var last := ls[|ls| - 1];
    JoinLast(ls);
    SuffixEnd(last, s);
    var c := last[|last| - 1];
    assert !IsLineBreak(ls[|ls| - 1][|last| - 1]);
    assert c != '\n';
  }

  /** A text ends with the last character of any non-empty suffix of it. */
  lemma {:induction false} SuffixEnd(p: string, s: string)
    requires p != [] && IsSuffix(p, s)
    ensures s != [] && s[|s| - 1] == p[|p| - 1]
  {
    assert s[|s| - |p|..][|p| - 1] == p[|p| - 1];
  }

  /** A join ends with its last word. */
  lemma {:induction false} JoinLast(ls: seq<string>)
    requires ls != []
    ensures IsSuffix(ls[|ls| - 1], Join(ls, "\n"))
  {
    var last := ls[|ls| - 1];
    if |ls| > 1 {
      var init := ls[..|ls| - 1];
      assert ls == init + [last];
      JoinSnoc(init, last, "\n");
      var s := Join(init, "\n") + "\n" + last;
      assert s[|s| - |last|..] == last;
    }
  }

  /** Lines without boundaries joined by newlines hold no boundary but the newlines. */
  lemma {:induction false} JoinNewlinesOnly(ls: seq<string>)
    requires Unbroken(ls)
    ensures NewlinesOnly(Join(ls, "\n"))
  {
    if |ls| > 1 {
      var t := ls[1..];
      assert Unbroken(t) by {
        forall i, j | 0 <= i < |t| && 0 <= j < |t[i]| ensures !IsLineBreak(t[i][j]) {
          assert t[i] == ls[i + 1];
        }
      }
      JoinNewlinesOnly(t);
      var s := Join(ls, "\n");
      var h := ls[0] + "\n";
      assert s == h + Join(t, "\n");
      forall i | 0 <= i < |s| ensures s[i] == '\n' || !IsLineBreak(s[i]) {
        if i >= |h| {
          assert s[i] == Join(t, "\n")[i - |h|];
        } else if i < |ls[0]| {
          assert s[i] == ls[0][i];
        }
      }
    } else if |ls| == 1 {
      assert Join(ls, "\n") == ls[0];
    }
  }

  // ---------------------------------------------------------------- the split point

  /** `int(x)`: truncation toward zero. */
  function Trunc(x: real): int
  {
    if x >= 0.0 then x.Floor else -((-x).Floor)
  }

  /** `int(ratio * len(lines))` */
  function SplitPoint(ratio: real, n: nat): int
  {
    Trunc(ratio * n as real)
  }

  /** Where a Python slice bound `k` falls in a list of `n`: a negative bound counts from the end, and
      a bound outside the list is clamped to it. */
  function SliceIndex(k: int, n: nat): (r: nat)
    ensures r <= n
  {
    if k < 0 then (if n + k < 0 then 0 else n + k) else if k > n then n else k
  }

  /** The position among `n` lines where `split_point` cuts. */
  function SplitIndex(ratio: real, n: nat): nat
  {
    SliceIndex(SplitPoint(ratio, n), n)
  }

  /** `lines[:split_point]` */
  function TrainLines(lines: seq<string>, ratio: real): seq<string>
  {
    lines[..SplitIndex(ratio, |lines|)]
  }

  /** `lines[split_point:]` */
  function EvalLines(lines: seq<string>, ratio: real): seq<string>
  {
    lines[SplitIndex(ratio, |lines|)..]
  }

  /** `floor(ratio * n)`, the share of `n` lines a ratio asks for. */
  function Share(ratio: real, n: nat): int
  {
    (ratio * n as real).Floor
  }

  /** Every line goes to exactly one list, in its order: the training lines, then the evaluation
      lines. */
  lemma {:induction false} Partition(lines: seq<string>, ratio: real)
    ensures TrainLines(lines, ratio) + EvalLines(lines, ratio) == lines
  {
    var k := SplitIndex(ratio, |lines|);
    assert lines[..k] + lines[k..] == lines;
  }

  /** A ratio between 0 and 1 cuts after `floor(ratio * n)` lines. */
  lemma {:induction false} ShareCut(ratio: real, n: nat)
    requires 0.0 <= ratio <= 1.0
    ensures SplitIndex(ratio, n) == Share(ratio, n)
  {
    var x := ratio * n as real;
    RatioBounds(ratio, n);
    FloorWithin(x, n);
    assert SplitPoint(ratio, n) == x.Floor;
  }

  /** The floor of a value in [0, n] lies in [0, n]. */
  lemma {:induction false} FloorWithin(x: real, n: nat)
    requires 0.0 <= x <= n as real
    ensures 0 <= x.Floor <= n
  {
    assert x.Floor as real <= x;
    assert x.Floor as real <= n as real;
  }

  /** So the training list gets that many lines. */
  lemma {:induction false} TrainSize(lines: seq<string>, ratio: real)
    requires 0.0 <= ratio <= 1.0
    ensures |TrainLines(lines, ratio)| == Share(ratio, |lines|)
    ensures |EvalLines(lines, ratio)| == |lines| - Share(ratio, |lines|)
  {
    ShareCut(ratio, |lines|);
  }

  lemma {:induction false} RatioBounds(ratio: real, n: nat)
    requires 0.0 <= ratio <= 1.0
    ensures 0.0 <= ratio * n as real <= n as real
  {
    assert (1.0 - ratio) * n as real >= 0.0;
  }

  /** A ratio of 1 or more sends every line to training and leaves the evaluation list empty. */
  lemma {:induction false} RatioAboveOne(lines: seq<string>, ratio: real)
    requires ratio >= 1.0
    ensures TrainLines(lines, ratio) == lines && EvalLines(lines, ratio) == []
  {
    var n := |lines|;
    assert ratio * n as real >= n as real by {
      assert (ratio - 1.0) * n as real >= 0.0;
    }
    assert SplitPoint(ratio, n) >= n;
  }

  /** A negative ratio counts from the end: the last `int(-ratio * n)` lines go to evaluation, or all
      of them when that is more than there are; but when it truncates to 0 the split point is 0 and
      again every line goes to evaluation. */
  lemma {:induction false} NegativeRatio(lines: seq<string>, ratio: real)
    requires ratio < 0.0
    ensures var m := ((-ratio) * |lines| as real).Floor;
      |EvalLines(lines, ratio)| == if m == 0 || m > |lines| then |lines| else m
  {
    var n := |lines|;
    var x := ratio * n as real;
    var y := (-ratio) * n as real;
    assert y >= 0.0 && x == -y;
    if x >= 0.0 {
      assert y == 0.0;
      assert SplitPoint(ratio, n) == 0;
    } else {
      assert SplitPoint(ratio, n) == -(y.Floor);
    }
  }

  // ---------------------------------------------------------------- split_file

  /** What `split_file` does: print the message and return `False`, or write the two lists and
      return `True`. */
  datatype Outcome =
    | NotFound(message: string)
    | Written(trainPath: string, trainText: string, evalPath: string, evalText: string)
    | Raised(error: Error)

  /** What the file system holds at a path: a file with its text, or a directory. */
  datatype Entry = File(text: string) | Directory

  /** `split_file`'s result, when it does not raise. */
  function Returned(o: Outcome): bool
    requires !o.Raised?
  {
    o.Written?
  }

  /** `str(pathlib.Path(p))`: the path with empty and `.` components dropped. */
  function PathText(p: string): string
  {
    PathString(IsAbsolute(p), Parts(p))
  }

  /** `Path(p).resolve()` against the working directory `cwd`. */
  function Resolve(cwd: string, p: string): string
  {
    PathString(true, if IsAbsolute(p) then Parts(p) else Parts(cwd) + Parts(p))
  }

  /** `pathlib.Path(dir, name)` for a plain file name. */
  function InDir(dir: string, name: string): string
  {
    PathString(IsAbsolute(dir), Parts(dir) + [name])
  }

  /** `split_file(input_file, ratio)`; `fs` gives what exists at each path. `read_text` of a directory
      raises `IsADirectoryError`. */
  function SplitFile(inputFile: string, ratio: real, fs: string -> Option<Entry>, cwd: string): Outcome
  {
    var path := PathText(inputFile);
    match fs(path)
    case None => NotFound("'" + path + "' not exists!")
    case Some(Directory) => Raised(IsADirectory(path))
    case Some(File(text)) =>
      var lines := SplitLines(text);
      var dir := Parent(Resolve(cwd, inputFile));
      Written(InDir(dir, "list.train"), Join(TrainLines(lines, ratio), "\n"),
              InDir(dir, "list.eval"), Join(EvalLines(lines, ratio), "\n"))
  }

  /** A missing path writes nothing and returns `False`, with a message naming the path as `pathlib`
      prints it; a directory raises; an existing file is written and returns `True`. */
  lemma {:induction false} SplitFileResult(inputFile: string, ratio: real, fs: string -> Option<Entry>, cwd: string)
    ensures var path := PathText(inputFile);
      var o := SplitFile(inputFile, ratio, fs, cwd);
      (o.Raised? <==> fs(path) == Some(Directory)) &&
      (o.Raised? ==> o.error == IsADirectory(path)) &&
      (!o.Raised? ==> (Returned(o) <==> fs(path).Some?)) &&
      (fs(path).None? ==> o == NotFound("'" + path + "' not exists!"))
  {
  }

  /** The two lists hold the lines of the file, the training ones first, each list joined by newlines
      with none after its last line; a ratio between 0 and 1 puts `floor(ratio * n)` of them in
      training. */
  lemma {:induction false} ListsHoldLines(inputFile: string, ratio: real, fs: string -> Option<Entry>, cwd: string)
    requires fs(PathText(inputFile)).Some? && fs(PathText(inputFile)).value.File?
    ensures var o := SplitFile(inputFile, ratio, fs, cwd);
      var lines := SplitLines(fs(PathText(inputFile)).value.text);
      var k := SplitIndex(ratio, |lines|);
      o.trainText == Join(lines[..k], "\n") && o.evalText == Join(lines[k..], "\n") &&
      (0.0 <= ratio <= 1.0 ==> k == Share(ratio, |lines|))
  {
    var lines := SplitLines(fs(PathText(inputFile)).value.text);
    if 0.0 <= ratio <= 1.0 {
      ShareCut(ratio, |lines|);
    }
  }

  /** When the file ends in a non-empty line and holds no boundary but newlines, each list read back
      with `splitlines` gives its lines, and the two together give the file's lines. */
  lemma {:induction false} ListsReadBack(lines: seq<string>, ratio: real)
    requires Unbroken(lines)
    requires forall i :: 0 <= i < |lines| ==> lines[i] != ""
    ensures SplitLines(Join(TrainLines(lines, ratio), "\n")) + SplitLines(Join(EvalLines(lines, ratio), "\n")) == lines
  {
    Partition(lines, ratio);
    var k := SplitIndex(ratio, |lines|);
    UnbrokenSlice(lines, 0, k);
    UnbrokenSlice(lines, k, |lines|);
    assert lines[0..k] == lines[..k] && lines[k..|lines|] == lines[k..];
    JoinSplitLines(lines[..k]);
    JoinSplitLines(lines[k..]);
  }

  /** A slice of non-empty lines without boundaries is such a list too, and ends in a non-empty line. */
  lemma {:induction false} UnbrokenSlice(lines: seq<string>, lo: nat, hi: nat)
    requires Unbroken(lines) && lo <= hi <= |lines|
    requires forall i :: 0 <= i < |lines| ==> lines[i] != ""
    ensures var s := lines[lo..hi]; Unbroken(s) && (s != [] ==> s[|s| - 1] != "")
  {
    var s := lines[lo..hi];
    forall i, j | 0 <= i < |s| && 0 <= j < |s[i]| ensures !IsLineBreak(s[i][j]) {
      assert s[i] == lines[lo + i];
    }
    if s != [] {
      assert s[|s| - 1] == lines[hi - 1];
    }
  }

  /** The resolved path is absolute: the working directory's components, then the path's, unless the
      path is absolute already. */
  lemma {:induction false} ResolveParts(cwd: string, p: string)
    ensures Parts(Resolve(cwd, p)) == (if IsAbsolute(p) then Parts(p) else Parts(cwd) + Parts(p))
    ensures IsAbsolute(Resolve(cwd, p))
  {
    var ps := if IsAbsolute(p) then Parts(p) else Parts(cwd) + Parts(p);
    if !IsAbsolute(p) {
      var a, b := Parts(cwd), Parts(p);
      forall i | 0 <= i < |ps| ensures IsPart(ps[i]) {
        if i >= |a| {
          assert ps[i] == b[i - |a|];
        }
      }
    }
    PartsOfPathString(true, ps);
  }

  /** The two list names are plain file names. */
  lemma {:induction false} ListNames()
    ensures IsPart("list.train") && IsPart("list.eval")
  {
    assert "list.train"[4] == '.' && "list.eval"[4] == '.';
    assert forall i :: 0 <= i < |"list.train"| ==> "list.train"[i] != '/';
    assert forall i :: 0 <= i < |"list.eval"| ==> "list.eval"[i] != '/';
  }

  /** Both lists sit in the directory of the resolved input file, named `list.train` and `list.eval`. */
  lemma {:induction false} ListsBesideInput(inputFile: string, ratio: real, fs: string -> Option<Entry>, cwd: string)
    requires fs(PathText(inputFile)).Some? && fs(PathText(inputFile)).value.File?
    ensures var o := SplitFile(inputFile, ratio, fs, cwd);
      var dir := Parts(Parent(Resolve(cwd, inputFile)));
      Parts(o.trainPath) == dir + ["list.train"] && Parts(o.evalPath) == dir + ["list.eval"] &&
      Name(o.trainPath) == "list.train" && Name(o.evalPath) == "list.eval" &&
      IsAbsolute(o.trainPath) && IsAbsolute(o.evalPath)
  {
    var r := Resolve(cwd, inputFile);
    ResolveParts(cwd, inputFile);
    ParentParts(r);
    var dir := Parent(r);
    ListNames();
    InDirParts(dir, "list.train");
    InDirParts(dir, "list.eval");
  }

  /** A file named into a directory has the directory's components and then its name. */
  lemma {:induction false} InDirParts(dir: string, name: string)
    requires IsPart(name)
    ensures Parts(InDir(dir, name)) == Parts(dir) + [name]
    ensures IsAbsolute(InDir(dir, name)) == IsAbsolute(dir)
  {
    var ps := Parts(dir) + [name];
    assert forall i :: 0 <= i < |ps| ==> IsPart(ps[i]);
    PartsOfPathString(IsAbsolute(dir), ps);
  }

  // ---------------------------------------------------------------- the command line

  /** The ratio when none is given. */
  const DefaultRatio: real := 0.95

  /** The script: `argv[1]` is the input file and `argv[2]`, when present, the ratio parsed by
      `float`; without an input file `pathlib.Path(None)` raises. */
  function Run(argv: seq<string>, toFloat: string -> Option<real>, fs: string -> Option<Entry>, cwd: string): Result<Outcome>
  {
    if |argv| > 2 && toFloat(argv[2]).None? then Err(NotAFloat(argv[2]))
    else if |argv| <= 1 then Err(MissingValue)
    else
      var ratio := if |argv| > 2 then toFloat(argv[2]).value else DefaultRatio;
      Ok(SplitFile(argv[1], ratio, fs, cwd))
  }

  /** Without a ratio argument the split uses 0.95; with one it uses the parsed value. */
  lemma {:induction false} RunArguments(argv: seq<string>, toFloat: string -> Option<real>, fs: string -> Option<Entry>, cwd: string)
    ensures |argv| == 2 ==> Run(argv, toFloat, fs, cwd) == Ok(SplitFile(argv[1], 0.95, fs, cwd))
    ensures |argv| > 2 && toFloat(argv[2]).Some? ==> Run(argv, toFloat, fs, cwd) == Ok(SplitFile(argv[1], toFloat(argv[2]).value, fs, cwd))
    ensures |argv| <= 1 ==> Run(argv, toFloat, fs, cwd).Err?
  {
  }
}
