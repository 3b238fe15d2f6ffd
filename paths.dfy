/** POSIX path strings as `pathlib.PurePosixPath` and `os.path` treat them. */
module Paths {
  import opened Text

  /** A path component pathlib keeps: not empty and not `.`. */
  predicate IsPart(s: string)
  {
    s != "" && s != "." && '/' !in s
  }

  function KeepParts(ps: seq<string>): (r: seq<string>)
    ensures forall i :: 0 <= i < |r| ==> IsPart(r[i])
    ensures |r| <= |ps|
  {
    if ps == [] then [] else (if ps[0] != "" && ps[0] != "." && '/' !in ps[0] then [ps[0]] else []) + KeepParts(ps[1..])
  }

  lemma {:induction false} KeepPartsIdentity(ps: seq<string>)
    requires forall i :: 0 <= i < |ps| ==> IsPart(ps[i])
    ensures KeepParts(ps) == ps
  {
    if ps != [] {
      KeepPartsIdentity(ps[1..]);
      assert ps == [ps[0]] + ps[1..];
    }
  }

  /** The components `pathlib` parses out of `p`: empty components and `.` are dropped. */
  function Parts(p: string): seq<string>
  {
    KeepParts(SplitOn(p, '/'))
  }

  predicate IsAbsolute(p: string)
  {
    p != [] && p[0] == '/'
  }

  /** `str()` of a path from its anchor and components. */
  function PathString(absolute: bool, ps: seq<string>): string
  {
    if absolute then "/" + Join(ps, "/") else if ps == [] then "." else Join(ps, "/")
  }

  /** Printing a path and parsing it again gives its components back. */
  lemma {:induction false} PartsOfPathString(absolute: bool, ps: seq<string>)
    requires forall i :: 0 <= i < |ps| ==> IsPart(ps[i])
    ensures Parts(PathString(absolute, ps)) == ps
    ensures IsAbsolute(PathString(absolute, ps)) == absolute
  {
    if ps == [] {
      if absolute {
        assert PathString(absolute, ps) == "/";
        assert SplitOn("/", '/') == ["", ""] by {
          assert IndexOf("/", '/') == 0;
          assert "/"[1..] == "";
        }
      } else {
        assert SplitOn(".", '/') == ["."] by {
          assert IndexOf(".", '/') == 1;
        }
      }
    } else {
      JoinSplitOn(ps, '/');
      KeepPartsIdentity(ps);
      if absolute {
        var j := Join(ps, "/");
        var s := "/" + j;
        assert IndexOf(s, '/') == 0;
        assert s[1..] == j;
        assert SplitOn(s, '/') == [""] + ps;
        assert KeepParts([""] + ps) == KeepParts(ps) by {
          assert ([""] + ps)[1..] == ps;
        }
      } else {
        assert Join(ps, "/") == Join(ps, ['/']);
      }
    }
  }

  /** `PurePosixPath(p).name`: the last component, or `""` when there is none. */
  function Name(p: string): string
  {
    var ps := Parts(p);
    if ps == [] then "" else ps[|ps| - 1]
  }

  /** Position of the last `c` in `s`, as `str.rfind`; `-1` when there is none. */
  function RFind(s: string, c: char): (k: int)
    ensures -1 <= k < |s|
    ensures k >= 0 ==> s[k] == c
  {
    RFindBelow(s, c, |s|)
  }

  /** The last position below `n` that holds `c`, or -1. */
  function RFindBelow(s: string, c: char, n: nat): (k: int)
    requires n <= |s|
    ensures -1 <= k < n
    ensures k >= 0 ==> s[k] == c
  {
    if n == 0 then -1 else if s[n - 1] == c then n - 1 else RFindBelow(s, c, n - 1)
  }

  /** No `c` lies between the found position and `n`. */
  lemma {:induction false} RFindBelowLast(s: string, c: char, n: nat)
    requires n <= |s|
    ensures forall i :: RFindBelow(s, c, n) < i < n ==> s[i] != c
  {
    if n > 0 && s[n - 1] != c {
      RFindBelowLast(s, c, n - 1);
    }
  }

  /** `c` does not occur after the position `rfind` reports. */
  lemma {:induction false} RFindLast(s: string, c: char)
    ensures c !in s[RFind(s, c) + 1..]
  {
    RFindBelowLast(s, c, |s|);
    var k := RFind(s, c);
    var t := s[k + 1..];
    assert forall i :: 0 <= i < |t| ==> t[i] == s[k + 1 + i];
  }

  /** `PurePosixPath(p).stem`: the name without its last suffix; a leading or trailing dot is no suffix. */
  function Stem(p: string): (r: string)
    ensures IsPrefix(r, Name(p))
    ensures r == Name(p) || (|r| > 0 && |r| < |Name(p)| - 1 && Name(p)[|r|] == '.' && '.' !in Name(p)[|r| + 1..])
  {
    var n := Name(p);
    var i := RFind(n, '.');
    RFindLast(n, '.');
    if 0 < i < |n| - 1 then
      n[..i]
    else n
  }

  /** The parent of a path: one component fewer; the anchor (or `.`) is its own parent. */
  function Parent(p: string): (r: string)
  {
    var ps := Parts(p);
    if ps == [] then PathString(IsAbsolute(p), []) else PathString(IsAbsolute(p), ps[..|ps| - 1])
  }

  /** The parent's components are the components without the last one. */
  lemma {:induction false} ParentParts(p: string)
    ensures Parts(Parent(p)) == (var ps := Parts(p); if ps == [] then [] else ps[..|ps| - 1])
    ensures IsAbsolute(Parent(p)) == IsAbsolute(p)
  {
    var ps := Parts(p);
    if ps == [] {
      PartsOfPathString(IsAbsolute(p), []);
    } else {
      PartsOfPathString(IsAbsolute(p), ps[..|ps| - 1]);
    }
  }

  /** The grandparent keeps all components but the last two. */
  lemma {:induction false} GrandparentParts(p: string)
    ensures Parts(Parent(Parent(p))) == (var ps := Parts(p); if |ps| < 2 then [] else ps[..|ps| - 2])
    ensures Parent(Parent(p)) == PathString(IsAbsolute(p), var ps := Parts(p); if |ps| < 2 then [] else ps[..|ps| - 2])
  {
    ParentParts(p);
    ParentParts(Parent(p));
    var ps := Parts(p);
    if |ps| >= 2 {
      assert ps[..|ps| - 1][..|ps| - 2] == ps[..|ps| - 2];
    }
  }

  /** `os.path.join(a, b)`: an absolute `b` replaces `a`; otherwise a `/` is put between unless `a` is empty or ends in one. */
  function PathJoin(a: string, b: string): (r: string)
    ensures IsAbsolute(b) ==> r == b
    ensures !IsAbsolute(b) && a != [] && a[|a| - 1] != '/' ==> r == a + "/" + b
  {
    if IsAbsolute(b) then b
    else if a == [] || a[|a| - 1] == '/' then a + b
    else a + "/" + b
  }

  /** Joining a relative `b` onto `a` keeps `a` in front and puts `b` at the end. */
  lemma {:induction false} PathJoinEnds(a: string, b: string)
    requires !IsAbsolute(b)
    ensures IsPrefix(a, PathJoin(a, b)) && IsSuffix(b, PathJoin(a, b))
  {
    var r := PathJoin(a, b);
    if a == [] || a[|a| - 1] == '/' {
      assert r[..|a|] == a && r[|r| - |b|..] == b;
    } else {
      assert r[..|a|] == a && r[|r| - |b|..] == b;
    }
  }

  /** The last character of a join is that of the joined name. */
  lemma {:induction false} PathJoinLast(a: string, b: string)
    requires b != []
    ensures var r := PathJoin(a, b); r != [] && r[|r| - 1] == b[|b| - 1]
  {
    if !IsAbsolute(b) {
      PathJoinEnds(a, b);
      var r := PathJoin(a, b);
      assert r[|r| - |b|..][|b| - 1] == r[|r| - 1];
    }
  }

  /** Joining onto the same `a` tells apart any two names that are both absolute or both relative. */
  lemma {:induction false} PathJoinInjective(a: string, b1: string, b2: string)
    requires IsAbsolute(b1) == IsAbsolute(b2)
    ensures PathJoin(a, b1) == PathJoin(a, b2) ==> b1 == b2
  {
    if !IsAbsolute(b1) && PathJoin(a, b1) == PathJoin(a, b2) {
      var x := if a == [] || a[|a| - 1] == '/' then a else a + "/";
      assert PathJoin(a, b1) == x + b1 && PathJoin(a, b2) == x + b2;
      assert b1 == (x + b1)[|x|..] && b2 == (x + b2)[|x|..];
    }
  }

  /** `os.path.basename(p)`: the text after the last `/`. */
  function BaseName(p: string): (r: string)
    ensures '/' !in r
    ensures IsSuffix(r, p)
    ensures '/' !in p ==> r == p
  {
    var i := RFind(p, '/');
    RFindLast(p, '/');
    p[i + 1..]
  }

  /** Whether `s[..k]` holds a character other than `.`. */
  predicate HasNonDot(s: string, k: nat)
    requires k <= |s|
  {
    exists i :: 0 <= i < k && s[i] != '.'
  }

  /** `os.path.splitext(name)[0]` for a name without `/`: the root before the last dot,
      unless only dots precede that dot. */
  function SplitExtRoot(name: string): (r: string)
    ensures IsPrefix(r, name)
    ensures r == name || ('.' !in name[|r| + 1..] && name[|r|] == '.' && HasNonDot(name, |r|))
  {
    var i := RFind(name, '.');
    RFindLast(name, '.');
    if i > 0 && HasNonDot(name, i) then
      name[..i]
    else name
  }
}
