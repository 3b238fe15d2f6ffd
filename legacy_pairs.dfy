/** The loop the older extractors run over their lines: `write_data` for each line in order, the first
    content that raises ending the run, and the summary of `write_all`. A line enters the loop as a
    `Pair` of what `write_data` reads from it. */
module LegacyPairs {
  import opened Common
  import opened Text
  import opened Seqs
  import opened Geometry
  import opened Raster
  import opened Paths
  import opened Training
  import opened Legacy

  /** What `write_data` reads from a line: its id, its content or the error computing it raises, and its
      box. */
  datatype Pair = Pair(id: string, content: Result<string>, box: Box)

  /** The index of the first pair whose content raises, `|ps|` when none does. */
  function FirstFailure(ps: seq<Pair>): (k: nat)
    ensures k <= |ps|
    ensures forall i :: 0 <= i < k ==> ps[i].content.Ok?
    ensures k < |ps| ==> ps[k].content.Err?
  {
    FirstFailureFrom(ps, 0)
  }

  function FirstFailureFrom(ps: seq<Pair>, i: nat): (k: nat)
    requires i <= |ps|
    requires forall j :: 0 <= j < i ==> ps[j].content.Ok?
    ensures i <= k <= |ps|
    ensures forall j :: 0 <= j < k ==> ps[j].content.Ok?
    ensures k < |ps| ==> ps[k].content.Err?
    decreases |ps| - i
  {
    if i == |ps| || ps[i].content.Err? then i else FirstFailureFrom(ps, i + 1)
  }

  /** The first failure is where the contents first raise. */
  lemma {:induction false} FirstFailureAt(ps: seq<Pair>, k: nat)
    requires k <= |ps| && forall i :: 0 <= i < k ==> ps[i].content.Ok?
    requires k < |ps| ==> ps[k].content.Err?
    ensures FirstFailure(ps) == k
  {
    FirstFailureFromAt(ps, 0, k);
  }

  lemma {:induction false} FirstFailureFromAt(ps: seq<Pair>, i: nat, k: nat)
    requires i <= k <= |ps| && forall j :: 0 <= j < k ==> ps[j].content.Ok?
    requires k < |ps| ==> ps[k].content.Err?
    ensures FirstFailureFrom(ps, i) == k
    decreases k - i
  {
    if i < k {
      FirstFailureFromAt(ps, i + 1, k);
    }
  }

  /** What the loop returns: the error of the first content that raises. */
  function Outcome(ps: seq<Pair>): (r: Result<()>)
    ensures r.Ok? <==> forall i :: 0 <= i < |ps| ==> ps[i].content.Ok?
    ensures r.Err? ==> exists k :: 0 <= k < |ps| && ps[k].content == Err(r.error)
  {
    var k := FirstFailure(ps);
    if k < |ps| then Err(ps[k].content.error) else Ok(())
  }

  /** `write_data` for one pair: a content that raises writes nothing. */
  function WriteOne(files: map<string, LegacyFile>, tg: Target, p: Pair): map<string, LegacyFile>
    requires tg.page.Valid()
  {
    if p.content.Ok? then WriteFiles(files, tg, p.id, p.content.value, p.box) else files
  }

  /** The files once `write_data` has run for the first `n` pairs. */
  function WrittenUpTo(files: map<string, LegacyFile>, tg: Target, ps: seq<Pair>, n: nat): map<string, LegacyFile>
    requires tg.page.Valid() && n <= |ps|
    decreases n
  {
    if n == 0 then files
    else
      WriteOne(WrittenUpTo(files, tg, ps, n - 1), tg, ps[n - 1])
  }

  /** The files after the whole loop: the pairs before the first failing one. */
  function Written(files: map<string, LegacyFile>, tg: Target, ps: seq<Pair>): map<string, LegacyFile>
    requires tg.page.Valid()
  {
    WrittenUpTo(files, tg, ps, FirstFailure(ps))
  }

  /** A run that meets a raising content there returns its error, with the files of the pairs before it. */
  lemma {:induction false} StopAt(files: map<string, LegacyFile>, tg: Target, ps: seq<Pair>, k: nat)
    requires tg.page.Valid() && k < |ps| && ps[k].content.Err?
    requires forall i :: 0 <= i < k ==> ps[i].content.Ok?
    ensures Outcome(ps) == Err(ps[k].content.error)
    ensures Written(files, tg, ps) == WrittenUpTo(files, tg, ps, k)
  {
    FirstFailureAt(ps, k);
  }

  /** A run whose contents all succeed returns normally, with the files of every pair. */
  lemma {:induction false} RunThrough(files: map<string, LegacyFile>, tg: Target, ps: seq<Pair>)
    requires tg.page.Valid() && forall i :: 0 <= i < |ps| ==> ps[i].content.Ok?
    ensures Outcome(ps) == Ok(())
    ensures Written(files, tg, ps) == WrittenUpTo(files, tg, ps, |ps|)
  {
    FirstFailureAt(ps, |ps|);
  }

  /** Nothing already on disk disappears. */
  lemma {:induction false} WrittenKeeps(files: map<string, LegacyFile>, tg: Target, ps: seq<Pair>, n: nat)
    requires tg.page.Valid() && n <= |ps|
    ensures forall p :: p in files ==> p in WrittenUpTo(files, tg, ps, n)
  {
    if n > 0 {
      WrittenKeeps(files, tg, ps, n - 1);
      var p := ps[n - 1];
      if p.content.Ok? {
        WriteFilesGate(WrittenUpTo(files, tg, ps, n - 1), tg, p.id, p.content.value, p.box);
      }
    }
  }

  /** Every new file is the text or the image of one of the pairs. */
  lemma {:induction false} WrittenOnlyPairs(files: map<string, LegacyFile>, tg: Target, ps: seq<Pair>, n: nat)
    requires tg.page.Valid() && n <= |ps|
    ensures forall p :: p in WrittenUpTo(files, tg, ps, n) && p !in files ==>
      exists i :: 0 <= i < n && (p == PairPath(tg, ps[i].id, SuffixGtText) || p == PairPath(tg, ps[i].id, SuffixGtImage))
  {
    if n > 0 {
      WrittenOnlyPairs(files, tg, ps, n - 1);
      var f := WrittenUpTo(files, tg, ps, n - 1);
      var q := ps[n - 1];
      if q.content.Ok? {
        WriteFilesGate(f, tg, q.id, q.content.value, q.box);
        forall p | p in WrittenUpTo(files, tg, ps, n) && p !in files
          ensures exists i :: 0 <= i < n && (p == PairPath(tg, ps[i].id, SuffixGtText) || p == PairPath(tg, ps[i].id, SuffixGtImage))
        {
          if p !in f {
            assert p == PairPath(tg, ps[n - 1].id, SuffixGtText) || p == PairPath(tg, ps[n - 1].id, SuffixGtImage);
          }
        }
      }
    }
  }

  /** The paths of two lines differ in the id, or in the suffix. */
  lemma {:induction false} PairPathsApart(tg: Target, a: string, b: string, sa: string, sb: string)
    requires sa in {SuffixGtText, SuffixGtImage} && sb in {SuffixGtText, SuffixGtImage}
    requires a != b || sa != sb
    ensures PairPath(tg, a, sa) != PairPath(tg, b, sb)
  {
    var na, nb := tg.setLabel + "_" + a + sa, tg.setLabel + "_" + b + sb;
    if sa != sb {
      assert na[|na| - 1] != nb[|nb| - 1];
      PathJoinLast(tg.dir, na);
      PathJoinLast(tg.dir, nb);
    } else {
      assert na[0] == nb[0];
      PathJoinInjective(tg.dir, na, nb);
      assert a == na[|tg.setLabel| + 1..|na| - |sa|] && b == nb[|tg.setLabel| + 1..|nb| - |sb|];
    }
  }

  /** A file that is not one of the paths of a line is left as it was by writing that line. */
  lemma {:induction false} WriteFilesElsewhere(files: map<string, LegacyFile>, tg: Target, id: string, content: string, box: Box, p: string)
    requires tg.page.Valid()
    requires p != PairPath(tg, id, SuffixGtText) && p != PairPath(tg, id, SuffixGtImage)
    ensures p in WriteFiles(files, tg, id, content, box) <==> p in files
    ensures p in files ==> WriteFiles(files, tg, id, content, box)[p] == files[p]
  {
  }

  /** A line with a non-empty content whose id no later line repeats leaves its content as its text file. */
  lemma {:induction false} WrittenText(files: map<string, LegacyFile>, tg: Target, ps: seq<Pair>, n: nat, i: nat)
    requires tg.page.Valid() && i < n <= |ps|
    requires ps[i].content.Ok? && ps[i].content.value != ""
    requires forall j :: i < j < n ==> ps[j].id != ps[i].id
    ensures var w := WrittenUpTo(files, tg, ps, n);
      PairPath(tg, ps[i].id, SuffixGtText) in w && w[PairPath(tg, ps[i].id, SuffixGtText)] == TextOut(ps[i].content.value)
  {
    var key := PairPath(tg, ps[i].id, SuffixGtText);
    var f := WrittenUpTo(files, tg, ps, n - 1);
    var q := ps[n - 1];
    if n - 1 == i {
      WriteFilesGate(f, tg, q.id, q.content.value, q.box);
    } else {
      WrittenText(files, tg, ps, n - 1, i);
      if q.content.Ok? {
        PairPathsApart(tg, ps[i].id, q.id, SuffixGtText, SuffixGtText);
        PairPathsApart(tg, ps[i].id, q.id, SuffixGtText, SuffixGtImage);
        WriteFilesElsewhere(f, tg, q.id, q.content.value, q.box, key);
      }
    }
  }

  // ---------------------------------------------------------------- summary

  /** `[content + '\n' for ...]` as `writelines` writes it: each content followed by a newline; the first
      content that raises decides the error. */
  function SummaryOf(ps: seq<Pair>): (r: Result<string>)
    ensures r.Ok? <==> forall i :: 0 <= i < |ps| ==> ps[i].content.Ok?
    ensures r.Err? ==> Outcome(ps).Err? && r.error == Outcome(ps).error
  {
    var cs := Collect(ps, (p: Pair) => var c :- p.content; Ok(c + "\n"));
    if cs.Err? then
      var k := FirstFailure(ps);
      assert k < |ps|;
      var e :| 0 <= e < |ps| && ps[e].content.Err? && cs.error == ps[e].content.error &&
        forall j :: 0 <= j < e ==> ps[j].content.Ok?;
      assert e == k;
      Err(cs.error)
    else Ok(Join(cs.value, ""))
  }

  /** The contents of the pairs, `""` for one that raises. */
  function PairContents(ps: seq<Pair>): (r: seq<string>)
    ensures |r| == |ps|
    ensures forall i :: 0 <= i < |ps| ==> r[i] == if ps[i].content.Ok? then ps[i].content.value else ""
  {
    Map(ps, (p: Pair) => if p.content.Ok? then p.content.value else "")
  }

  /** Ending each word with a newline and concatenating is joining the words and one empty word with
      newlines. */
  lemma {:induction false} NewlineTerminated(cs: seq<string>, ws: seq<string>)
    requires |cs| == |ws|
    requires forall i :: 0 <= i < |ws| ==> cs[i] == ws[i] + "\n"
    ensures Join(cs, "") == Join(ws + [""], "\n")
  {
    if ws != [] {
      NewlineTerminated(cs[1..], ws[1..]);
      assert (ws + [""])[1..] == ws[1..] + [""];
      assert Join(cs, "") == cs[0] + Join(cs[1..], "") by {
        if |cs| == 1 {
          assert cs[1..] == [];
        }
      }
    }
  }

  /** Reading the summary back line by line gives every content in order, and an empty last piece after
      the final newline, as long as no content holds a newline itself. */
  lemma {:induction false} SummaryLines(ps: seq<Pair>)
    requires SummaryOf(ps).Ok?
    requires forall i :: 0 <= i < |ps| ==> '\n' !in ps[i].content.value
    ensures SplitOn(SummaryOf(ps).value, '\n') == PairContents(ps) + [""]
  {
    var f := (p: Pair) => var c :- p.content; Ok(c + "\n");
    var cs := Collect(ps, f).value;
    var ws := PairContents(ps);
    forall i | 0 <= i < |ws| ensures cs[i] == ws[i] + "\n" {
      assert f(ps[i]) == Ok(cs[i]);
    }
    NewlineTerminated(cs, ws);
    var all := ws + [""];
    forall i | 0 <= i < |all| ensures '\n' !in all[i] {
      if i < |ws| {
        assert all[i] == ps[i].content.value;
      }
    }
    JoinSplitOn(all, '\n');
  }
}
