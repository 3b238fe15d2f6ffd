/** `count_chars.py`: a histogram of the characters of a text file, printed in code-point order with
    each character's Unicode name. The names come from the Unicode database: `name(c)` is `None`
    where `unicodedata.name` raises, for control characters such as the newline. */
module CountChars {
  import opened Common
  import opened Text
  import opened Sorting

  /** No character occurs twice. */
  predicate Distinct(s: seq<char>)
  {
    forall i, j :: 0 <= i < j < |s| ==> s[i] != s[j]
  }

  /** Each character comes before every later one in code-point order. */
  predicate Ascending(s: seq<char>)
  {
    forall i, j :: 0 <= i < j < |s| ==> s[i] < s[j]
  }

  /** `for arg in args: txt_file = arg`: the last positional argument, `''` when there is none. */
  method LastArgument(args: seq<string>) returns (txtFile: string)
    ensures args == [] ==> txtFile == ""
    ensures args != [] ==> txtFile == args[|args| - 1]
  {
    txtFile := "";
    for i := 0 to |args|
      invariant i == 0 ==> txtFile == ""
      invariant i > 0 ==> txtFile == args[i - 1]
    {
      txtFile := args[i];
    }
  }

  /** The distinct characters of `s` in the order of their first occurrence: the order in which the
      loop inserts them into the dictionary, which `list(chars.keys())` keeps. */
  function FirstOccurrences(s: string): seq<char>
  {
    if s == [] then []
    else
      var init := s[..|s| - 1];
      if s[|s| - 1] in init then FirstOccurrences(init) else FirstOccurrences(init) + [s[|s| - 1]]
  }

  /** They are distinct and they are the characters of `s`. */
  lemma {:induction false} FirstOccurrencesSpec(s: string)
    ensures Distinct(FirstOccurrences(s)) && forall c :: c in FirstOccurrences(s) <==> c in s
    decreases |s|
  {
    if s != [] {
      var init := s[..|s| - 1];
      var x := s[|s| - 1];
      FirstOccurrencesSpec(init);
      assert s == init + [x];
      assert forall c :: c in s <==> c in init || c == x;
    }
  }

  lemma {:induction false} FirstOccurrencesSnoc(s: string, x: char)
    ensures FirstOccurrences(s + [x]) == if x in s then FirstOccurrences(s) else FirstOccurrences(s) + [x]
  {
    assert (s + [x])[..|s|] == s;
  }

  /** What the loop has built after reading `s`: a count for each character of `s`, and the keys in
      the order of their first occurrence. */
  predicate Tally(chars: map<char, nat>, keys: seq<char>, s: string)
  {
    (forall c :: c in chars <==> c in s) &&
    (forall c :: c in chars ==> chars[c] == multiset(s)[c]) &&
    keys == FirstOccurrences(s)
  }

  /** One more character read: a new key starts at 1, a known key goes up by one. */
  lemma {:induction false} TallyStep(chars: map<char, nat>, keys: seq<char>, s: string, c: char)
    requires Tally(chars, keys, s)
    ensures c !in chars ==> Tally(chars[c := 1], keys + [c], s + [c])
    ensures c in chars ==> Tally(chars[c := chars[c] + 1], keys, s + [c])
  {
    FirstOccurrencesSnoc(s, c);
    assert multiset(s + [c]) == multiset(s) + multiset{c};
    assert forall d :: d in s + [c] <==> d in s || d == c;
  }

  /** The counting loop over the text: `chars` is the dictionary and `keys` the order in which its
      keys were inserted. */
  method Count(text: string) returns (chars: map<char, nat>, keys: seq<char>)
    ensures forall c :: c in chars <==> c in text
    ensures forall c :: c in chars ==> chars[c] == multiset(text)[c]
    ensures keys == FirstOccurrences(text)
  {
    chars := map[];
    keys := [];
    for i := 0 to |text|
      invariant Tally(chars, keys, text[..i])
    {
      var c := text[i];
      assert text[..i + 1] == text[..i] + [c];
      TallyStep(chars, keys, text[..i], c);
      if c !in chars {
        chars := chars[c := 1];
        keys := keys + [c];
      } else {
        chars := chars[c := chars[c] + 1];
      }
    }
    assert text[..|text|] == text;
  }

  // ---------------------------------------------------------------- the counts add up

  /** The counts of the characters `ks`, added up. */
  function Total(ks: seq<char>, chars: map<char, nat>): nat
    requires forall i :: 0 <= i < |ks| ==> ks[i] in chars
  {
    if ks == [] then 0 else chars[ks[0]] + Total(ks[1..], chars)
  }

  /** The occurrences in `s` of the characters `ks`, added up. */
  function Occurrences(ks: seq<char>, s: string): nat
  {
    if ks == [] then 0 else multiset(s)[ks[0]] + Occurrences(ks[1..], s)
  }

  /** How often `x` occurs in `ks`. */
  function Hits(ks: seq<char>, x: char): nat
  {
    if ks == [] then 0 else (if ks[0] == x then 1 else 0) + Hits(ks[1..], x)
  }

  lemma {:induction false} OccurrencesSnoc(ks: seq<char>, s: string, x: char)
    ensures Occurrences(ks, s + [x]) == Occurrences(ks, s) + Hits(ks, x)
  {
    if ks != [] {
      OccurrencesSnoc(ks[1..], s, x);
      assert multiset(s + [x]) == multiset(s) + multiset{x};
    }
  }

  lemma {:induction false} HitsDistinct(ks: seq<char>, x: char)
    requires Distinct(ks) && x in ks
    ensures Hits(ks, x) == 1
  {
    if ks[0] == x {
      HitsAbsent(ks[1..], x);
    } else {
      assert Distinct(ks[1..]) by {
        forall i, j | 0 <= i < j < |ks[1..]| ensures ks[1..][i] != ks[1..][j] {
          assert ks[1..][i] == ks[i + 1] && ks[1..][j] == ks[j + 1];
        }
      }
      assert x in ks[1..] by {
        var i :| 0 <= i < |ks| && ks[i] == x;
        assert ks[1..][i - 1] == x;
      }
      HitsDistinct(ks[1..], x);
    }
  }

  lemma {:induction false} HitsAbsent(ks: seq<char>, x: char)
    requires x !in ks
    ensures Hits(ks, x) == 0
  {
    if ks != [] {
      assert forall y :: y in ks[1..] ==> y in ks;
      HitsAbsent(ks[1..], x);
    }
  }

  /** Distinct characters that cover a text occur in it as often, together, as it is long. */
  lemma {:induction false} OccurrencesCover(ks: seq<char>, s: string)
    requires Distinct(ks) && forall c :: c in s ==> c in ks
    ensures Occurrences(ks, s) == |s|
    decreases |s|
  {
    if s == [] {
      OccurrencesEmpty(ks);
    } else {
      var init := s[..|s| - 1];
      var x := s[|s| - 1];
      assert s == init + [x];
      assert forall c :: c in init ==> c in s;
      OccurrencesCover(ks, init);
      OccurrencesSnoc(ks, init, x);
      HitsDistinct(ks, x);
    }
  }

  lemma {:induction false} OccurrencesEmpty(ks: seq<char>)
    ensures Occurrences(ks, "") == 0
  {
    if ks != [] {
      OccurrencesEmpty(ks[1..]);
    }
  }

  lemma {:induction false} TotalIsOccurrences(ks: seq<char>, chars: map<char, nat>, s: string)
    requires forall i :: 0 <= i < |ks| ==> ks[i] in chars && chars[ks[i]] == multiset(s)[ks[i]]
    ensures Total(ks, chars) == Occurrences(ks, s)
  {
    if ks != [] {
      TotalIsOccurrences(ks[1..], chars, s);
    }
  }

  /** The counts of all the keys add up to the length of the text. */
  lemma {:induction false} CountsSumToLength(text: string, chars: map<char, nat>, keys: seq<char>)
    requires forall c :: c in chars <==> c in text
    requires forall c :: c in chars ==> chars[c] == multiset(text)[c]
    requires Distinct(keys) && forall c :: c in keys <==> c in chars
    ensures Total(keys, chars) == |text|
  {
    TotalIsOccurrences(keys, chars, text);
    OccurrencesCover(keys, text);
  }

  // ---------------------------------------------------------------- the report

  /** A character's code point, the order `keys.sort()` puts characters in. */
  function CodePoint(c: char): int
  {
    c as int
  }

  /** `keys.sort()` */
  function SortedKeys(keys: seq<char>): seq<char>
  {
    SortBy(keys, CodePoint)
  }

  /** Sorted distinct keys are strictly ascending and are the same characters. */
  lemma {:induction false} SortedKeysAscending(keys: seq<char>)
    requires Distinct(keys)
    ensures var s := SortedKeys(keys);
      multiset(s) == multiset(keys) && (forall c :: c in s <==> c in keys) && Ascending(s)
  {
    var s := SortedKeys(keys);
    SortBySorted(keys, CodePoint);
    assert forall c :: c in s <==> c in multiset(s);
    assert forall c :: c in keys <==> c in multiset(keys);
    forall i, j | 0 <= i < j < |s| ensures s[i] < s[j] {
      assert CodePoint(s[i]) <= CodePoint(s[j]);
      assert s[i] != s[j] by {
        DistinctMultiset(keys);
        if s[i] == s[j] {
          assert multiset(s)[s[i]] >= 2 by {
            assert multiset([s[i], s[j]]) <= multiset(s) by {
              SubMultiset(s, i, j);
            }
          }
        }
      }
    }
  }

  lemma {:induction false} DistinctMultiset(ks: seq<char>)
    requires Distinct(ks)
    ensures forall c :: multiset(ks)[c] <= 1
  {
    if ks != [] {
      assert Distinct(ks[1..]) by {
        forall i, j | 0 <= i < j < |ks[1..]| ensures ks[1..][i] != ks[1..][j] {
          assert ks[1..][i] == ks[i + 1] && ks[1..][j] == ks[j + 1];
        }
      }
      DistinctMultiset(ks[1..]);
      assert ks == [ks[0]] + ks[1..];
      assert ks[0] !in ks[1..];
    }
  }

  lemma {:induction false} SubMultiset(s: seq<char>, i: nat, j: nat)
    requires i < j < |s|
    ensures multiset([s[i], s[j]]) <= multiset(s)
  {
    assert s == s[..i] + [s[i]] + s[i + 1..j] + [s[j]] + s[j + 1..];
  }

  /** The header `print` writes before the counts. */
  const Header: string := "Count\tCharacter\n-----\t---------"

  /** `print(chars[char], '\t', char, unicodedata.name(char))`: the fields separated by spaces. */
  function CountLine(count: nat, c: char, name: string): string
  {
    NatToString(count) + " \t " + [c] + " " + name
  }

  /** The keys `unicodedata.name` knows, in order: the others raise inside the `try` and print
      nothing, because the name is computed before `print` writes anything. */
  function Named(keys: seq<char>, name: char -> Option<string>): seq<char>
  {
    if keys == [] then [] else (if name(keys[0]).Some? then [keys[0]] else []) + Named(keys[1..], name)
  }

  /** The lines printed after the header, one per named key. */
  function CountLines(keys: seq<char>, chars: map<char, nat>, name: char -> Option<string>): seq<string>
    requires forall i :: 0 <= i < |keys| ==> keys[i] in chars
  {
    if keys == [] then []
    else
      (if name(keys[0]).Some? then [CountLine(chars[keys[0]], keys[0], name(keys[0]).value)] else [])
      + CountLines(keys[1..], chars, name)
  }

  /** What the script prints for a text: the header, then a line per named character in code-point
      order (each string one `print` call). */
  function Report(chars: map<char, nat>, keys: seq<char>, name: char -> Option<string>): seq<string>
    requires forall c :: c in keys ==> c in chars
  {
    var sorted := SortedKeys(keys);
    assert forall i :: 0 <= i < |sorted| ==> sorted[i] in chars by {
      forall i | 0 <= i < |sorted| ensures sorted[i] in chars {
        assert sorted[i] in multiset(sorted);
      }
    }
    [Header] + CountLines(sorted, chars, name)
  }

  /** The lines are exactly those of the named keys, in the order of the keys. */
  lemma {:induction false} CountLinesNamed(keys: seq<char>, chars: map<char, nat>, name: char -> Option<string>)
    requires forall i :: 0 <= i < |keys| ==> keys[i] in chars
    ensures var n := Named(keys, name);
      var ls := CountLines(keys, chars, name);
      |ls| == |n| &&
      forall i :: 0 <= i < |n| ==> n[i] in chars && name(n[i]).Some? && ls[i] == CountLine(chars[n[i]], n[i], name(n[i]).value)
  {
    if keys != [] {
      CountLinesNamed(keys[1..], chars, name);
      var n := Named(keys, name);
      var ls := CountLines(keys, chars, name);
      var n' := Named(keys[1..], name);
      var ls' := CountLines(keys[1..], chars, name);
      if name(keys[0]).Some? {
        forall i | 0 <= i < |n| ensures n[i] in chars && name(n[i]).Some? && ls[i] == CountLine(chars[n[i]], n[i], name(n[i]).value) {
          if i > 0 {
            assert n[i] == n'[i - 1] && ls[i] == ls'[i - 1];
          }
        }
      } else {
        assert n == n' && ls == ls';
      }
    }
  }

  /** A key is printed exactly when it has a name. */
  lemma {:induction false} NamedMembers(keys: seq<char>, name: char -> Option<string>)
    ensures forall c :: c in Named(keys, name) <==> c in keys && name(c).Some?
  {
    if keys != [] {
      NamedMembers(keys[1..], name);
      assert keys == [keys[0]] + keys[1..];
    }
  }

  lemma {:induction false} AscendingTail(s: seq<char>)
    requires s != [] && Ascending(s)
    ensures Ascending(s[1..]) && forall c :: c in s[1..] ==> s[0] < c
  {
    var t := s[1..];
    forall i, j | 0 <= i < j < |t| ensures t[i] < t[j] {
      assert t[i] == s[i + 1] && t[j] == s[j + 1];
    }
    forall c | c in t ensures s[0] < c {
      var k :| 0 <= k < |t| && t[k] == c;
      assert s[k + 1] == c;
    }
  }

  lemma {:induction false} AscendingCons(x: char, t: seq<char>)
    requires Ascending(t) && forall c :: c in t ==> x < c
    ensures Ascending([x] + t)
  {
    var s := [x] + t;
    forall i, j | 0 <= i < j < |s| ensures s[i] < s[j] {
      assert s[j] == t[j - 1];
      if i > 0 {
        assert s[i] == t[i - 1];
      } else {
        assert s[0] == x && t[j - 1] in t;
      }
    }
  }

  /** Leaving out the unnamed keys keeps ascending keys ascending. */
  lemma {:induction false} NamedAscending(keys: seq<char>, name: char -> Option<string>)
    requires Ascending(keys)
    ensures Ascending(Named(keys, name))
  {
    if keys != [] {
      var t := keys[1..];
      AscendingTail(keys);
      NamedAscending(t, name);
      NamedMembers(t, name);
      if name(keys[0]).Some? {
        assert Named(keys, name) == [keys[0]] + Named(t, name);
        AscendingCons(keys[0], Named(t, name));
      } else {
        assert Named(keys, name) == Named(t, name);
      }
    }
  }

  /** The characters the report lists. */
  function Reported(text: string, name: char -> Option<string>): seq<char>
  {
    Named(SortedKeys(FirstOccurrences(text)), name)
  }

  /** The report lists exactly the characters of the text that have a name, in strictly ascending
      code-point order. */
  lemma {:induction false} ReportedSpec(text: string, name: char -> Option<string>)
    ensures var r := Reported(text, name);
      (forall c :: c in r <==> c in text && name(c).Some?) && Ascending(r)
  {
    var keys := FirstOccurrences(text);
    FirstOccurrencesSpec(text);
    var sorted := SortedKeys(keys);
    SortedKeysAscending(keys);
    NamedMembers(sorted, name);
    NamedAscending(sorted, name);
    var r := Reported(text, name);
    assert r == Named(sorted, name);
    assert forall c :: c in r <==> c in text && name(c).Some?;
  }

  /** The report built from the loop's dictionary: the header, then one line per reported character
      with its number of occurrences in the text. */
  lemma {:induction false} ReportShape(text: string, chars: map<char, nat>, keys: seq<char>, name: char -> Option<string>)
    requires Tally(chars, keys, text)
    ensures forall c :: c in keys ==> c in chars
    ensures var ns := Reported(text, name);
      var out := Report(chars, keys, name);
      |out| == 1 + |ns| && out[0] == Header &&
      forall i :: 0 <= i < |ns| ==> name(ns[i]).Some? && out[i + 1] == CountLine(multiset(text)[ns[i]], ns[i], name(ns[i]).value)
  {
    FirstOccurrencesSpec(text);
    SortedKeysAscending(keys);
    var sorted := SortedKeys(keys);
    assert forall i :: 0 <= i < |sorted| ==> sorted[i] in chars;
    CountLinesNamed(sorted, chars, name);
    var ns := Named(sorted, name);
    assert Reported(text, name) == ns;
    var out := Report(chars, keys, name);
    assert out == [Header] + CountLines(sorted, chars, name);
  }

  /** The script on the content of the last file argument: the header, then one line per reported
      character with its count in the text. */
  method CountCharsReport(text: string, name: char -> Option<string>) returns (out: seq<string>)
    ensures var ns := Reported(text, name);
      |out| == 1 + |ns| && out[0] == Header &&
      forall i :: 0 <= i < |ns| ==> name(ns[i]).Some? && out[i + 1] == CountLine(multiset(text)[ns[i]], ns[i], name(ns[i]).value)
  {
    var chars, keys := Count(text);
    ReportShape(text, chars, keys, name);
    out := Report(chars, keys, name);
  }
}
