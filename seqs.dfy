/** Python list comprehensions over sequences: `[x for x in s if p(x)]` and `[f(x) for x in s]`, the latter
    also for an `f` that can raise. */
module Seqs {
  import opened Common

  /** `[x for x in s if p(x)]`: the elements satisfying `p`, in their order in `s`. */
  function Filter<T(!new)>(s: seq<T>, p: T -> bool): (r: seq<T>)
    ensures |r| <= |s|
    ensures forall i :: 0 <= i < |r| ==> p(r[i])
    ensures forall x :: x in r <==> x in s && p(x)
  {
    if s == [] then [] else (if p(s[0]) then [s[0]] else []) + Filter(s[1..], p)
  }

  /** Filtering a concatenation filters each part. */
  lemma {:induction false} FilterAppend<T(!new)>(a: seq<T>, b: seq<T>, p: T -> bool)
    ensures Filter(a + b, p) == Filter(a, p) + Filter(b, p)
  {
    if a == [] {
      assert a + b == b;
    } else {
      assert (a + b)[1..] == a[1..] + b;
      FilterAppend(a[1..], b, p);
    }
  }

  /** The filter of the first `k` elements, built from the front as a loop over them does. */
  function FilterTo<T>(s: seq<T>, k: nat, p: T -> bool): seq<T>
    requires k <= |s|
  {
    if k == 0 then [] else FilterTo(s, k - 1, p) + if p(s[k - 1]) then [s[k - 1]] else []
  }

  /** Filtering from the front gives the filter of the prefix. */
  lemma {:induction false} FilterToFilter<T(!new)>(s: seq<T>, k: nat, p: T -> bool)
    requires k <= |s|
    ensures FilterTo(s, k, p) == Filter(s[..k], p)
  {
    if k > 0 {
      FilterToFilter(s, k - 1, p);
      assert s[..k] == s[..k - 1] + [s[k - 1]];
      FilterAppend(s[..k - 1], [s[k - 1]], p);
      assert [s[k - 1]][1..] == [];
      assert Filter([s[k - 1]][1..], p) == [];
    }
  }

  /** Two conditions that agree on every element of `s` filter it alike. */
  lemma {:induction false} FilterSame<T(!new)>(s: seq<T>, p: T -> bool, q: T -> bool)
    requires forall i :: 0 <= i < |s| ==> p(s[i]) == q(s[i])
    ensures Filter(s, p) == Filter(s, q)
  {
    if s != [] {
      FilterSame(s[1..], p, q);
    }
  }

  /** A filter that every element passes keeps the whole sequence. */
  lemma {:induction false} FilterAll<T(!new)>(s: seq<T>, p: T -> bool)
    requires forall i :: 0 <= i < |s| ==> p(s[i])
    ensures Filter(s, p) == s
  {
    if s != [] {
      FilterAll(s[1..], p);
      assert s == [s[0]] + s[1..];
    }
  }

  /** `[f(x) for x in s]` */
  function Map<T, U>(s: seq<T>, f: T -> U): (r: seq<U>)
    ensures |r| == |s|
    ensures forall i :: 0 <= i < |s| ==> r[i] == f(s[i])
  {
    seq(|s|, i requires 0 <= i < |s| => f(s[i]))
  }

  /** `[f(x) for x in s]` for an `f` that can raise: the first element whose `f` fails decides the error. */
  function Collect<T, U>(s: seq<T>, f: T -> Result<U>): (r: Result<seq<U>>)
    ensures r.Ok? <==> forall i :: 0 <= i < |s| ==> f(s[i]).Ok?
    ensures r.Ok? ==> |r.value| == |s| && forall i :: 0 <= i < |s| ==> f(s[i]) == Ok(r.value[i])
    ensures r.Err? ==> exists k :: (0 <= k < |s| && f(s[k]).Err? && r.error == f(s[k]).error &&
                                    forall j :: 0 <= j < k ==> f(s[j]).Ok?)
  {
    if s == [] then Ok([])
    else
      match f(s[0])
      case Err(e) => Err(e)
      case Ok(h) =>
        var rest := Collect(s[1..], f);
        assert forall i :: 1 <= i < |s| ==> s[i] == s[1..][i - 1];
        match rest
        case Err(e) =>
          assert exists k :: (1 <= k < |s| && f(s[k]).Err? && e == f(s[k]).error &&
                              forall j :: 0 <= j < k ==> f(s[j]).Ok?) by {
            var k :| 0 <= k < |s[1..]| && f(s[1..][k]).Err? && e == f(s[1..][k]).error &&
              forall j :: 0 <= j < k ==> f(s[1..][j]).Ok?;
            assert s[k + 1] == s[1..][k];
            forall j | 0 <= j < k + 1 ensures f(s[j]).Ok? {
              if j > 0 { assert s[j] == s[1..][j - 1]; }
            }
          }
          Err(e)
        case Ok(t) => Ok([h] + t)
  }

  /** `acc` in front of the value of a result, or its error: what a loop that has produced `acc` and
      goes on with a suffix returns. */
  function Prepend<T>(acc: seq<T>, r: Result<seq<T>>): Result<seq<T>>
  {
    if r.Err? then Err(r.error) else Ok(acc + r.value)
  }

  lemma {:induction false} PrependNil<T>(r: Result<seq<T>>)
    ensures Prepend([], r) == r
  {
    if r.Ok? {
      assert [] + r.value == r.value;
    }
  }

  lemma {:induction false} PrependAppend<T>(a: seq<T>, b: seq<T>, r: Result<seq<T>>)
    ensures Prepend(a, Prepend(b, r)) == Prepend(a + b, r)
  {
    if r.Ok? {
      assert a + (b + r.value) == (a + b) + r.value;
    }
  }

  /** One step of `Collect` over a suffix. */
  lemma {:induction false} CollectStep<T, U>(s: seq<T>, f: T -> Result<U>, i: nat)
    requires i < |s|
    ensures Collect(s[i..], f) == if f(s[i]).Err? then Err(f(s[i]).error) else Prepend([f(s[i]).value], Collect(s[i + 1..], f))
  {
    assert s[i..][1..] == s[i + 1..];
  }

  /** When `f` succeeds on every element, `Collect` gives exactly those values. */
  lemma {:induction false} CollectAllOk<T, U>(s: seq<T>, f: T -> Result<U>, vs: seq<U>)
    requires |vs| == |s| && forall j :: 0 <= j < |s| ==> f(s[j]) == Ok(vs[j])
    ensures Collect(s, f) == Ok(vs)
  {
    var r := Collect(s, f);
    assert r.Ok?;
    assert r.value == vs;
  }

  /** Two steps that fail on the same elements with the same errors make `Collect` fail alike. */
  lemma {:induction false} CollectSameErrors<T, U, V>(s: seq<T>, f: T -> Result<U>, g: T -> Result<V>)
    requires forall j :: 0 <= j < |s| ==> (f(s[j]).Ok? <==> g(s[j]).Ok?)
    requires forall j :: 0 <= j < |s| ==> f(s[j]).Err? ==> g(s[j]) == Err(f(s[j]).error)
    ensures Collect(s, f).Ok? <==> Collect(s, g).Ok?
    ensures Collect(s, f).Err? ==> Collect(s, g) == Err(Collect(s, f).error)
  {
    if Collect(s, f).Err? {
      var k :| 0 <= k < |s| && f(s[k]).Err? && Collect(s, f).error == f(s[k]).error &&
        forall j :: 0 <= j < k ==> f(s[j]).Ok?;
      CollectFirstError(s, g, k);
    }
  }

  /** The first element whose `f` fails decides the error of `Collect`. */
  lemma {:induction false} CollectFirstError<T, U>(s: seq<T>, f: T -> Result<U>, i: nat)
    requires i < |s| && f(s[i]).Err? && forall j :: 0 <= j < i ==> f(s[j]).Ok?
    ensures Collect(s, f) == Err(f(s[i]).error)
  {
    var k :| 0 <= k < |s| && f(s[k]).Err? && Collect(s, f).error == f(s[k]).error &&
      forall j :: 0 <= j < k ==> f(s[j]).Ok?;
    if k != i {
      assert false;
    }
  }
}
