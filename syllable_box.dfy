/** `generate_line_syllable_box.py`: the boxes of a one-line Devanagari ground truth, one per grapheme
    cluster. A character joins the cluster before it when its Unicode category is a mark (`M…`), or a
    letter (`L…`) right after the virama. The first letter of `unicodedata.category(c)` comes from the
    Unicode database and is the parameter `major`; NFC normalisation is the parameter `nfc`. */
module SyllableBox {
  import opened Common
  import opened Text
  import opened Boxes

  /** DEVANAGARI SIGN VIRAMA */
  const Virama: char := '्'

  /** Whether `c` joins the current cluster, `prev` being the character read before it (`None` at the
      start). */
  predicate Joins(c: char, prev: Option<char>, major: char -> char)
  {
    major(c) == 'M' || (major(c) == 'L' && prev == Some(Virama))
  }

  /** Every character of the cluster after its first joins the one before it. */
  predicate Joined(cluster: string, major: char -> char)
  {
    forall j :: 1 <= j < |cluster| ==> Joins(cluster[j], Some(cluster[j - 1]), major)
  }

  /** Two neighbouring clusters: both non-empty, and the first character of `b` does not join the last
      of `a`. */
  predicate Apart(a: string, b: string, major: char -> char)
  {
    a != [] && b != [] && !Joins(b[0], Some(a[|a| - 1]), major)
  }

  /** Where the cluster that starts at index 0 of `s` ends, searching from `i`: the first index whose
      character does not join, or `|s|`. */
  function ClusterEnd(s: string, i: nat, major: char -> char): (k: nat)
    requires 1 <= i <= |s|
    ensures i <= k <= |s|
    decreases |s| - i
  {
    if i == |s| || !Joins(s[i], Some(s[i - 1]), major) then i else ClusterEnd(s, i + 1, major)
  }

  /** The clusters of `s`, left to right: the longest run from the start whose characters join, then
      the clusters of the rest. */
  function Clusters(s: string, major: char -> char): seq<string>
    decreases |s|
  {
    if s == [] then [] else
      var k := ClusterEnd(s, 1, major);
      [s[..k]] + Clusters(s[k..], major)
  }

  // ---------------------------------------------------------------- the generator

  /** `splitclusters(s)`, the clusters it yields collected in order. */
  method SplitClusters(s: string, major: char -> char) returns (cs: seq<string>)
    ensures cs == Clusters(s, major)
  {
    cs := [];
    var cluster := "";
    var last: Option<char> := None;
    for i := 0 to |s|
      invariant i == 0 ==> cluster == [] && last == None && cs == []
      invariant i > 0 ==> cluster != [] && last == Some(s[i - 1]) && cluster[|cluster| - 1] == s[i - 1]
      invariant i > 0 ==> Joined(cluster, major) && cs + Clusters(cluster + s[i..], major) == Clusters(s, major)
    {
      var c := s[i];
      if i > 0 {
        ClusterStep(s, i, cs, cluster, major);
      } else {
        assert [c] + s[1..] == s;
        assert cs + Clusters([c] + s[1..], major) == Clusters(s, major);
      }
      if major(c) == 'M' || (major(c) == 'L' && last == Some(Virama)) {
        cluster := cluster + [c];
      } else {
        if cluster != [] {
          cs := cs + [cluster];
        }
        cluster := [c];
      }
      assert i == 0 ==> cluster == [c] && cs == [];
      last := Some(c);
    }
    if cluster != [] {
      ClustersCut(cluster, [], major);
      assert cluster + s[|s|..] == cluster;
      cs := cs + [cluster];
    }
  }

  /** One step of the loop, for a character after the first: it joins the current cluster, or the
      current cluster is complete and the character starts the next. */
  lemma {:induction false} ClusterStep(s: string, i: nat, cs: seq<string>, cluster: string, major: char -> char)
    requires 0 < i < |s| && cluster != [] && cluster[|cluster| - 1] == s[i - 1] && Joined(cluster, major)
    requires cs + Clusters(cluster + s[i..], major) == Clusters(s, major)
    ensures Joins(s[i], Some(s[i - 1]), major) ==>
      Joined(cluster + [s[i]], major) && cs + Clusters(cluster + [s[i]] + s[i + 1..], major) == Clusters(s, major)
    ensures !Joins(s[i], Some(s[i - 1]), major) ==> (cs + [cluster]) + Clusters([s[i]] + s[i + 1..], major) == Clusters(s, major)
  {
    assert s[i..] == [s[i]] + s[i + 1..];
    if Joins(s[i], Some(s[i - 1]), major) {
      JoinedSnoc(cluster, s[i], major);
      assert cluster + [s[i]] + s[i + 1..] == cluster + s[i..];
    } else {
      ClustersCut(cluster, s[i..], major);
    }
  }

  lemma {:induction false} JoinedSnoc(cluster: string, c: char, major: char -> char)
    requires cluster != [] && Joined(cluster, major) && Joins(c, Some(cluster[|cluster| - 1]), major)
    ensures Joined(cluster + [c], major)
  {
    var t := cluster + [c];
    forall j | 1 <= j < |t| ensures Joins(t[j], Some(t[j - 1]), major) {
      if j < |cluster| {
        assert t[j] == cluster[j] && t[j - 1] == cluster[j - 1];
      }
    }
  }

  /** A joined cluster followed by a character that does not join it is a cluster of its own. */
  lemma {:induction false} ClustersCut(a: string, b: string, major: char -> char)
    requires a != [] && Joined(a, major)
    requires b != [] ==> !Joins(b[0], Some(a[|a| - 1]), major)
    ensures Clusters(a + b, major) == [a] + Clusters(b, major)
  {
    var s := a + b;
    forall j | 1 <= j < |a| ensures Joins(s[j], Some(s[j - 1]), major) {
      assert s[j] == a[j] && s[j - 1] == a[j - 1];
    }
    if b != [] {
      assert s[|a|] == b[0] && s[|a| - 1] == a[|a| - 1];
    }
    ClusterEndAt(s, 1, |a|, major);
    assert s[..|a|] == a && s[|a|..] == b;
  }

  /** The cluster ends at `k` when every character before `k` joins and the one at `k` does not. */
  lemma {:induction false} ClusterEndAt(s: string, i: nat, k: nat, major: char -> char)
    requires 1 <= i <= k <= |s|
    requires forall j :: 1 <= j < k ==> Joins(s[j], Some(s[j - 1]), major)
    requires k < |s| ==> !Joins(s[k], Some(s[k - 1]), major)
    ensures ClusterEnd(s, i, major) == k
    decreases k - i
  {
    if i < k {
      ClusterEndAt(s, i + 1, k, major);
    }
  }

  // ---------------------------------------------------------------- what the clusters are

  /** The clusters put together give the string back. */
  lemma {:induction false} ClustersConcat(s: string, major: char -> char)
    ensures Join(Clusters(s, major), "") == s
    decreases |s|
  {
    if s != [] {
      var k := ClusterEnd(s, 1, major);
      var rest := Clusters(s[k..], major);
      ClustersConcat(s[k..], major);
      if rest == [] {
        assert Clusters(s, major) == [s[..k]];
        assert s[k..] == [] by {
          assert Join(rest, "") == s[k..];
        }
        assert s[..k] == s;
      } else {
        JoinCons(s[..k], rest, "");
        assert s[..k] + s[k..] == s;
      }
    }
  }

  /** No cluster is empty, and only the empty string has none. */
  lemma {:induction false} ClustersNonEmpty(s: string, major: char -> char)
    ensures forall i :: 0 <= i < |Clusters(s, major)| ==> Clusters(s, major)[i] != []
    ensures Clusters(s, major) == [] <==> s == []
    decreases |s|
  {
    if s != [] {
      var k := ClusterEnd(s, 1, major);
      ClustersNonEmpty(s[k..], major);
      var cs := Clusters(s, major);
      forall i | 0 <= i < |cs| ensures cs[i] != [] {
        if i > 0 {
          assert cs[i] == Clusters(s[k..], major)[i - 1];
        }
      }
    }
  }

  /** Inside a cluster every character joins the one before it. */
  lemma {:induction false} ClustersJoined(s: string, major: char -> char)
    ensures forall i :: 0 <= i < |Clusters(s, major)| ==> Joined(Clusters(s, major)[i], major)
    decreases |s|
  {
    if s != [] {
      var k := ClusterEnd(s, 1, major);
      ClustersJoined(s[k..], major);
      ClusterEndJoins(s, 1, major);
      var cs := Clusters(s, major);
      var head := s[..k];
      assert Joined(head, major) by {
        forall j | 1 <= j < |head| ensures Joins(head[j], Some(head[j - 1]), major) {
          assert head[j] == s[j] && head[j - 1] == s[j - 1];
        }
      }
      forall i | 0 <= i < |cs| ensures Joined(cs[i], major) {
        if i > 0 {
          assert cs[i] == Clusters(s[k..], major)[i - 1];
        }
      }
    }
  }

  lemma {:induction false} ClusterEndJoins(s: string, i: nat, major: char -> char)
    requires 1 <= i <= |s|
    requires forall j :: 1 <= j < i ==> Joins(s[j], Some(s[j - 1]), major)
    ensures forall j :: 1 <= j < ClusterEnd(s, i, major) ==> Joins(s[j], Some(s[j - 1]), major)
    ensures ClusterEnd(s, i, major) < |s| ==> !Joins(s[ClusterEnd(s, i, major)], Some(s[ClusterEnd(s, i, major) - 1]), major)
    decreases |s| - i
  {
    if i < |s| && Joins(s[i], Some(s[i - 1]), major) {
      ClusterEndJoins(s, i + 1, major);
    }
  }

  /** Each cluster after the first starts with a character that does not join the end of the cluster
      before it. */
  lemma {:induction false} ClustersBoundary(s: string, major: char -> char)
    ensures var cs := Clusters(s, major);
      forall i :: 0 <= i < |cs| - 1 ==> Apart(cs[i], cs[i + 1], major)
    decreases |s|
  {
    if s != [] {
      var k := ClusterEnd(s, 1, major);
      var rest := Clusters(s[k..], major);
      ClustersBoundary(s[k..], major);
      ClusterEndJoins(s, 1, major);
      ClustersNonEmpty(s[k..], major);
      ClustersConcat(s[k..], major);
      var cs := Clusters(s, major);
      assert cs == [s[..k]] + rest;
      if rest != [] {
        assert k < |s|;
        assert rest[0][0] == s[k] by {
          FirstOfJoin(rest, s[k..]);
        }
      }
      forall i | 0 <= i < |cs| - 1 ensures Apart(cs[i], cs[i + 1], major) {
        if i > 0 {
          assert cs[i] == rest[i - 1] && cs[i + 1] == rest[i];
        } else {
          assert cs[1] == rest[0];
        }
      }
    }
  }

  /** The first character of a concatenation of non-empty pieces is that of the first piece. */
  lemma {:induction false} FirstOfJoin(ws: seq<string>, s: string)
    requires ws != [] && ws[0] != [] && Join(ws, "") == s
    ensures s != [] && s[0] == ws[0][0]
  {
    if |ws| > 1 {
      JoinCons(ws[0], ws[1..], "");
      assert [ws[0]] + ws[1..] == ws;
    }
  }

  /** A string's first character always opens its first cluster. */
  lemma {:induction false} FirstOpens(s: string, major: char -> char)
    requires s != []
    ensures Clusters(s, major) != [] && Clusters(s, major)[0] != [] && Clusters(s, major)[0][0] == s[0]
  {
    var k := ClusterEnd(s, 1, major);
    assert Clusters(s, major)[0] == s[..k];
  }

  /** The four properties above fix the clusters: any split of `s` into non-empty joined pieces whose
      boundaries do not join is the one `splitclusters` yields. */
  lemma {:induction false} ClustersUnique(s: string, cs: seq<string>, major: char -> char)
    requires Join(cs, "") == s
    requires forall i :: 0 <= i < |cs| ==> cs[i] != [] && Joined(cs[i], major)
    requires forall i :: 0 <= i < |cs| - 1 ==> Apart(cs[i], cs[i + 1], major)
    ensures cs == Clusters(s, major)
    decreases |cs|
  {
    if cs == [] {
      assert s == [];
    } else if |cs| == 1 {
      assert s == cs[0];
      ClustersCut(cs[0], [], major);
      assert cs[0] + [] == cs[0];
      assert cs == [cs[0]];
    } else {
      var rest := cs[1..];
      var t := Join(rest, "");
      UniqueTail(cs, major);
      ClustersUnique(t, rest, major);
      JoinCons(cs[0], rest, "");
      assert [cs[0]] + rest == cs;
      assert s == cs[0] + t by {
        assert cs[0] + "" == cs[0];
      }
      assert rest[0] == cs[1];
      FirstOfJoin(rest, t);
      assert Apart(cs[0], cs[1], major);
      ClustersCut(cs[0], t, major);
    }
  }

  lemma {:induction false} UniqueTail(cs: seq<string>, major: char -> char)
    requires cs != []
    requires forall i :: 0 <= i < |cs| ==> cs[i] != [] && Joined(cs[i], major)
    requires forall i :: 0 <= i < |cs| - 1 ==> Apart(cs[i], cs[i + 1], major)
    ensures forall i :: 0 <= i < |cs[1..]| ==> cs[1..][i] != [] && Joined(cs[1..][i], major)
    ensures forall i :: 0 <= i < |cs[1..]| - 1 ==> Apart(cs[1..][i], cs[1..][i + 1], major)
  {
    var rest := cs[1..];
    forall i | 0 <= i < |rest| ensures rest[i] != [] && Joined(rest[i], major) {
      assert rest[i] == cs[i + 1];
    }
    forall i | 0 <= i < |rest| - 1 ensures Apart(rest[i], rest[i + 1], major) {
      assert rest[i] == cs[i + 1] && rest[i + 1] == cs[i + 2];
    }
  }

  // ---------------------------------------------------------------- the script

  /** The two lines printed per cluster: the cluster's box over the whole image, then a tab box over
      the whole image. */
  function ClusterRecords(cs: seq<string>, width: int, height: int): seq<Record>
  {
    if cs == [] then [] else [Glyph(cs[0], width, height), Glyph("\t", width, height)] + ClusterRecords(cs[1..], width, height)
  }

  lemma {:induction false} ClusterRecordsShape(cs: seq<string>, width: int, height: int)
    ensures var r := ClusterRecords(cs, width, height);
      |r| == 2 * |cs| &&
      (forall i :: 0 <= i < |cs| ==> r[2 * i] == Glyph(cs[i], width, height) && r[2 * i + 1] == Glyph("\t", width, height))
  {
    if cs != [] {
      ClusterRecordsShape(cs[1..], width, height);
      var r := ClusterRecords(cs, width, height);
      var t := ClusterRecords(cs[1..], width, height);
      forall i | 0 <= i < |cs| ensures r[2 * i] == Glyph(cs[i], width, height) && r[2 * i + 1] == Glyph("\t", width, height) {
        if i > 0 {
          assert r[2 * i] == t[2 * (i - 1)] && r[2 * i + 1] == t[2 * (i - 1) + 1];
          assert cs[i] == cs[1..][i - 1];
        }
      }
    }
  }

  lemma {:induction false} ClusterRecordsSnoc(cs: seq<string>, c: string, width: int, height: int)
    ensures ClusterRecords(cs + [c], width, height) == ClusterRecords(cs, width, height) + [Glyph(c, width, height), Glyph("\t", width, height)]
  {
    if cs == [] {
      assert cs + [c] == [c];
    } else {
      assert (cs + [c])[1..] == cs[1..] + [c];
      ClusterRecordsSnoc(cs[1..], c, width, height);
    }
  }

  /** What the script prints for the content of the ground-truth file, or the `ValueError` it raises
      when the stripped content is not exactly one line. */
  function SyllableBoxFile(text: string, width: int, height: int, major: char -> char, nfc: string -> string): Result<seq<Record>>
  {
    var lines := SplitOn(Strip(text), '\n');
    if |lines| != 1 then Err(NotOneLine(|lines|))
    else
      var line := nfc(Strip(lines[0]));
      if line == [] then Ok([]) else Ok(ClusterRecords(Clusters(line, major), width, height))
  }

  /** The script: the clusters of the normalised line, each printed as two records. */
  method GenerateSyllableBox(text: string, width: int, height: int, major: char -> char, nfc: string -> string)
    returns (r: Result<seq<Record>>)
    ensures r == SyllableBoxFile(text, width, height, major, nfc)
  {
    var lines := SplitOn(Strip(text), '\n');
    if |lines| != 1 {
      return Err(NotOneLine(|lines|));
    }
    var line := nfc(Strip(lines[0]));
    var out: seq<Record> := [];
    if line != [] {
      var cs := SplitClusters(line, major);
      for k := 0 to |cs|
        invariant out == ClusterRecords(cs[..k], width, height)
      {
        ClusterRecordsSnoc(cs[..k], cs[k], width, height);
        assert cs[..k + 1] == cs[..k] + [cs[k]];
        out := out + [Glyph(cs[k], width, height), Glyph("\t", width, height)];
      }
      assert cs[..|cs|] == cs;
    }
    return Ok(out);
  }

  /** The script refuses the file exactly when its stripped content holds a newline, and then names
      how many lines it found. */
  lemma {:induction false} OneLineRequired(text: string, width: int, height: int, major: char -> char, nfc: string -> string)
    ensures var r := SyllableBoxFile(text, width, height, major, nfc);
      (r.Err? <==> '\n' in Strip(text)) &&
      (r.Err? ==> r.error == NotOneLine(|SplitOn(Strip(text), '\n')|) && |SplitOn(Strip(text), '\n')| >= 2)
  {
    SplitOnSingle(Strip(text), '\n');
  }

  /** A split gives one piece exactly when the separator does not occur. */
  lemma {:induction false} SplitOnSingle(s: string, d: char)
    ensures |SplitOn(s, d)| == 1 <==> d !in s
  {
    var k := IndexOf(s, d);
    if k < |s| {
      assert |SplitOn(s, d)| == 1 + |SplitOn(s[k + 1..], d)|;
    }
  }

  /** The accepted line gives two records per cluster, the cluster's and then a tab's, and nothing for
      a line that is empty once stripped and normalised. */
  lemma {:induction false} TwoRecordsPerCluster(text: string, width: int, height: int, major: char -> char, nfc: string -> string)
    requires '\n' !in Strip(text)
    ensures var line := nfc(Strip(Strip(text)));
      var r := SyllableBoxFile(text, width, height, major, nfc);
      var cs := Clusters(line, major);
      r.Ok? && |r.value| == 2 * |cs| && (line == [] ==> r.value == []) &&
      (forall i :: 0 <= i < |cs| ==> r.value[2 * i] == Glyph(cs[i], width, height) && r.value[2 * i + 1] == Glyph("\t", width, height))
  {
    SplitOnSingle(Strip(text), '\n');
    assert SplitOn(Strip(text), '\n') == [Strip(text)];
    var line := nfc(Strip(Strip(text)));
    ClusterRecordsShape(Clusters(line, major), width, height);
    ClustersNonEmpty(line, major);
  }
}
