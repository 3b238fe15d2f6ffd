/** The line object of `sets/` and `lib/`: an id, word tokens and a box whose bottom edge `_inspect_content`
    may move, to the end of another word, by dropping the tallest words while their heights spread too far. */
module Outliers {
  import opened Geometry
  import opened Lines

  /** `np.std(hs) > 10`: the population variance `sum(h*h)/n - (sum(h)/n)^2` exceeds 100, written without
      division as `n*sum(h*h) - sum(h)^2 > 100*n*n`. The deviation of an empty list is NaN, and NaN
      compares false. */
  predicate Spread(hs: seq<int>)
  {
    SpreadFrom(hs, 0, 0, 0)
  }

  /** The sums of `Spread` accumulated over `hs[i..]`, `s` and `sq` holding those of `hs[..i]`. */
  predicate SpreadFrom(hs: seq<int>, i: nat, s: int, sq: int)
    requires i <= |hs|
    decreases |hs| - i
  {
    if i == |hs| then i > 0 && i * sq - s * s > 100 * i * i
    else SpreadFrom(hs, i + 1, s + hs[i], sq + hs[i] * hs[i])
  }

  /** One height never spreads, so a spreading list has at least two. */
  lemma {:induction false} SpreadTwo(hs: seq<int>)
    ensures Spread(hs) ==> |hs| >= 2
  {
    if |hs| == 1 {
      var h := hs[0];
      assert Spread(hs) == SpreadFrom(hs, 1, h, h * h);
      assert 1 * (h * h) - h * h == 0;
    }
  }

  /** `np.argmax(hs)`: the index of the maximum found by a scan from the left (see `ArgMaxSpec`). */
  function ArgMax(hs: seq<int>): (k: nat)
    requires hs != []
    ensures k < |hs|
  {
    ArgMaxFrom(hs, 1, 0)
  }

  /** The scan of `ArgMax` from index `i`, `b` being the index kept so far. */
  function ArgMaxFrom(hs: seq<int>, i: nat, b: nat): (k: nat)
    requires b < i <= |hs|
    ensures k < |hs|
    decreases |hs| - i
  {
    if i == |hs| then b else ArgMaxFrom(hs, i + 1, if hs[i] > hs[b] then i else b)
  }

  /** `ArgMax` is the first index of a maximum. */
  lemma {:induction false} ArgMaxSpec(hs: seq<int>)
    requires hs != []
    ensures forall i :: 0 <= i < |hs| ==> hs[i] <= hs[ArgMax(hs)]
    ensures forall i :: 0 <= i < ArgMax(hs) ==> hs[i] < hs[ArgMax(hs)]
  {
    ArgMaxFromSpec(hs, 1, 0);
  }

  lemma {:induction false} ArgMaxFromSpec(hs: seq<int>, i: nat, b: nat)
    requires b < i <= |hs|
    requires forall j :: 0 <= j < i ==> hs[j] <= hs[b]
    requires forall j :: 0 <= j < b ==> hs[j] < hs[b]
    ensures forall j :: 0 <= j < |hs| ==> hs[j] <= hs[ArgMaxFrom(hs, i, b)]
    ensures forall j :: 0 <= j < ArgMaxFrom(hs, i, b) ==> hs[j] < hs[ArgMaxFrom(hs, i, b)]
    decreases |hs| - i
  {
    if i < |hs| {
      ArgMaxFromSpec(hs, i + 1, if hs[i] > hs[b] then i else b);
    }
  }

  /** `hs.pop(k)` (see `RemoveAtSpec`). */
  function RemoveAt(hs: seq<int>, k: nat): (r: seq<int>)
    requires k < |hs|
    ensures |r| == |hs| - 1
  {
    hs[..k] + hs[k + 1..]
  }

  /** Popping index `k` takes out exactly `hs[k]`. */
  lemma {:induction false} RemoveAtMultiset(hs: seq<int>, k: nat)
    requires k < |hs|
    ensures multiset(RemoveAt(hs, k)) + multiset{hs[k]} == multiset(hs)
  {
    assert hs == hs[..k] + [hs[k]] + hs[k + 1..];
  }

  /** Popping index `k` keeps the other heights in order. */
  lemma {:induction false} RemoveAtSpec(hs: seq<int>, k: nat)
    requires k < |hs|
    ensures forall j :: 0 <= j < k ==> RemoveAt(hs, k)[j] == hs[j]
    ensures forall j :: k <= j < |hs| - 1 ==> RemoveAt(hs, k)[j] == hs[j + 1]
  {
    assert hs == hs[..k] + [hs[k]] + hs[k + 1..];
  }

  /** The heights the loop of `_inspect_content` leaves, from pass `i` on: while the heights spread and at
      most four passes have run, the first tallest is popped. */
  function Remaining(hs: seq<int>, i: int): seq<int>
    decreases 5 - i
  {
    if Spread(hs) && i <= 4 then
      SpreadTwo(hs);
      Remaining(RemoveAt(hs, ArgMax(hs)), i + 1)
    else hs
  }

  /** The heights the loop pops, in the order it pops them. */
  function Removed(hs: seq<int>, i: int): seq<int>
    decreases 5 - i
  {
    if Spread(hs) && i <= 4 then
      SpreadTwo(hs);
      var k := ArgMax(hs);
      [hs[k]] + Removed(RemoveAt(hs, k), i + 1)
    else []
  }

  /** The bottom edge the loop leaves: after each pass it is the end (`VPOS + HEIGHT`) of the word whose
      index is the argmax of the remaining heights: an index into the shortened list, applied to the original words. */
  function Bottom(hs: seq<int>, ends: seq<int>, y2: int, i: int): int
    requires |hs| <= |ends|
    decreases 5 - i
  {
    if Spread(hs) && i <= 4 then
      SpreadTwo(hs);
      var rest := RemoveAt(hs, ArgMax(hs));
      Bottom(rest, ends, ends[ArgMax(rest)], i + 1)
    else y2
  }

  /** The loop runs at most four passes, removing one height each; it stops early only once the heights no
      longer spread; the list never becomes empty; and a loop that removes nothing leaves the list alone. */
  lemma {:induction false} InspectPasses(hs: seq<int>, i: int)
    requires i >= 1
    ensures |Removed(hs, i)| <= (if i <= 4 then 5 - i else 0)
    ensures |Remaining(hs, i)| + |Removed(hs, i)| == |hs|
    ensures |Removed(hs, i)| < 5 - i ==> !Spread(Remaining(hs, i))
    ensures hs != [] ==> Remaining(hs, i) != []
    ensures Removed(hs, i) == [] ==> Remaining(hs, i) == hs
    decreases 5 - i
  {
    if Spread(hs) && i <= 4 {
      SpreadTwo(hs);
      var next := i + 1;
      InspectPasses(RemoveAt(hs, ArgMax(hs)), next);
    }
  }

  /** A loop that removes nothing keeps the bottom edge; otherwise the edge is the end of the word whose
      index is the argmax of the remaining heights: an index into the shortened list, applied to the original words. */
  lemma {:induction false} InspectBottom(hs: seq<int>, ends: seq<int>, y2: int, i: int)
    requires |hs| <= |ends| && i >= 1
    ensures |Remaining(hs, i)| <= |hs|
    ensures Removed(hs, i) == [] ==> Bottom(hs, ends, y2, i) == y2
    ensures Removed(hs, i) != [] ==>
      Remaining(hs, i) != [] && Bottom(hs, ends, y2, i) == ends[ArgMax(Remaining(hs, i))]
    decreases 5 - i
  {
    InspectPasses(hs, i);
    if Spread(hs) && i <= 4 {
      SpreadTwo(hs);
      var rest := RemoveAt(hs, ArgMax(hs));
      var next := i + 1;
      InspectBottom(rest, ends, ends[ArgMax(rest)], next);
      InspectPasses(rest, next);
    }
  }

  /** The heights removed and the heights left are together the heights the loop started with. */
  lemma {:induction false} InspectKeeps(hs: seq<int>, i: int)
    ensures multiset(Remaining(hs, i)) + multiset(Removed(hs, i)) == multiset(hs)
    decreases 5 - i
  {
    if Spread(hs) && i <= 4 {
      SpreadTwo(hs);
      var k := ArgMax(hs);
      var rest := RemoveAt(hs, k);
      RemoveAtMultiset(hs, k);
      var next := i + 1;
      InspectKeeps(rest, next);
      assert Remaining(hs, i) == Remaining(rest, next);
      assert Removed(hs, i) == [hs[k]] + Removed(rest, next);
      MultisetPop(hs, hs[k], rest, Remaining(rest, next), Removed(rest, next));
    } else {
      assert Removed(hs, i) == [];
    }
  }

  /** Moving the popped height `x` to the front of the removed ones keeps the multiset of all heights. */
  lemma {:induction false} MultisetPop(hs: seq<int>, x: int, rest: seq<int>, heights: seq<int>, removed: seq<int>)
    requires multiset(rest) + multiset{x} == multiset(hs)
    requires multiset(heights) + multiset(removed) == multiset(rest)
    ensures multiset(heights) + multiset([x] + removed) == multiset(hs)
  {
    assert multiset([x] + removed) == multiset{x} + multiset(removed);
  }

  /** Every height of `tall` is at least every height of `short`. */
  predicate AtLeast(tall: seq<int>, short: seq<int>)
  {
    forall a, b :: 0 <= a < |tall| && 0 <= b < |short| ==> short[b] <= tall[a]
  }

  /** Every removed height is at least every remaining one. */
  lemma {:induction false} InspectTallest(hs: seq<int>, i: int)
    ensures AtLeast(Removed(hs, i), Remaining(hs, i))
    decreases 5 - i
  {
    if Spread(hs) && i <= 4 {
      SpreadTwo(hs);
      var k := ArgMax(hs);
      var rest := RemoveAt(hs, k);
      RestBelowMax(hs);
      var next := i + 1;
      InspectTallest(rest, next);
      InspectBelow(rest, next, hs[k]);
      var heights, removed := Remaining(rest, next), Removed(rest, next);
      assert Remaining(hs, i) == heights && Removed(hs, i) == [hs[k]] + removed;
      forall a, b | 0 <= a < 1 + |removed| && 0 <= b < |heights| ensures heights[b] <= ([hs[k]] + removed)[a] {
        if a > 0 {
          assert ([hs[k]] + removed)[a] == removed[a - 1];
        }
      }
    }
  }

  /** What is left after popping the maximum is bounded by it. */
  lemma {:induction false} RestBelowMax(hs: seq<int>)
    requires hs != []
    ensures var k := ArgMax(hs); forall j :: 0 <= j < |hs| - 1 ==> RemoveAt(hs, k)[j] <= hs[k]
  {
    var k := ArgMax(hs);
    ArgMaxSpec(hs);
    RemoveAtSpec(hs, k);
    forall j | 0 <= j < |hs| - 1 ensures RemoveAt(hs, k)[j] <= hs[k] {
      if j < k { assert RemoveAt(hs, k)[j] == hs[j]; } else { assert RemoveAt(hs, k)[j] == hs[j + 1]; }
    }
  }

  /** The loop only removes heights, so a bound on all heights bounds the remaining ones. */
  lemma {:induction false} InspectBelow(hs: seq<int>, i: int, bound: int)
    requires forall j :: 0 <= j < |hs| ==> hs[j] <= bound
    ensures forall j :: 0 <= j < |Remaining(hs, i)| ==> Remaining(hs, i)[j] <= bound
    decreases 5 - i
  {
    if Spread(hs) && i <= 4 {
      SpreadTwo(hs);
      var k := ArgMax(hs);
      var rest := RemoveAt(hs, k);
      RemoveAtSpec(hs, k);
      forall j | 0 <= j < |rest| ensures rest[j] <= bound {
        if j < k { assert rest[j] == hs[j]; } else { assert rest[j] == hs[j + 1]; }
      }
      var next := i + 1;
      InspectBelow(rest, next, bound);
    }
  }

  /** Heights that do not spread, an empty list among them, leave the heights and the box alone. */
  lemma {:induction false} InspectIdle(hs: seq<int>, ends: seq<int>, y2: int)
    requires |hs| <= |ends|
    ensures !Spread(hs) ==> Remaining(hs, 1) == hs && Removed(hs, 1) == [] && Bottom(hs, ends, y2, 1) == y2
  {
  }

  /** A text line of `sets/` or `lib/`: the box fields are set by the constructor and only `y_2` is changed
      afterwards. */
  class Textline {
    const dialect: Dialect
    const id: string
    const words: seq<string>
    var x1: int
    var y1: int
    var x2: int
    var y2: int

    constructor (dialect: Dialect, id: string, words: seq<string>, box: Box)
      ensures this.dialect == dialect && this.id == id && this.words == words
      ensures x1 == box.x1 && y1 == box.y1 && x2 == box.x2 && y2 == box.y2
    {
      this.dialect := dialect;
      this.id := id;
      this.words := words;
      x1 := box.x1;
      y1 := box.y1;
      x2 := box.x2;
      y2 := box.y2;
    }

    function Bounds(): Box
      reads this
    {
      Box(x1, y1, x2, y2)
    }

    /** The outlier loop of `_inspect_content` over the given word heights, `ends` holding the
        `VPOS + HEIGHT` of each word. */
    method InspectContent(heights: seq<int>, ends: seq<int>)
      requires |heights| == |ends|
      modifies this`y2
      ensures y2 == Bottom(heights, ends, old(y2), 1)
    {
      var wordHeights := heights;
      var i := 1;
      while Spread(wordHeights) && i <= 4
        invariant |wordHeights| <= |ends|
        invariant Bottom(wordHeights, ends, y2, i) == Bottom(heights, ends, old(y2), 1)
        decreases 5 - i
      {
        SpreadTwo(wordHeights);
        var outlier := ArgMax(wordHeights);
        wordHeights := RemoveAt(wordHeights, outlier);
        y2 := ends[ArgMax(wordHeights)];
        i := i + 1;
      }
    }
  }

  /** What a line object holds: its dialect, id, words and box fields. */
  datatype Line = Line(dialect: Dialect, id: string, words: seq<string>, box: Box)

  function Snapshot(t: Textline): Line
    reads t
  {
    Line(t.dialect, t.id, t.words, t.Bounds())
  }

  function Snapshots(ts: seq<Textline>): (r: seq<Line>)
    reads ts
    ensures |r| == |ts| && forall i :: 0 <= i < |ts| ==> r[i] == Snapshot(ts[i])
  {
    seq(|ts|, i reads ts requires 0 <= i < |ts| => Snapshot(ts[i]))
  }
}
